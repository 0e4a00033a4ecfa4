/**
 `recover`, the birth of an agent's key and a first connect, as the commands run them over the shared
 key store: between any two of their steps other commands on this host may take any number of steps of
 their own, any durable step may fail, the service may answer anything or nothing, and the process may
 stop at any point. Each command is proved to take only disciplined steps, so what holds of every run
 of the key store holds with it running.
 */
module KeyCommands {
  import opened Wrappers
  import opened KeyMoves
  import opened Vault

  /** The pending recovery is named for the key being replaced, or for the handle when none is held. */
  function RecoveryPointer(h: Handle, cur: Option<Key>): Pointer {
    match cur case Some(k) => OfKey(k) case None => OfHandle(h)
  }

  function Pointed(d: Disk, p: Pointer): Option<Key> {
    if p in d.pending && d.pending[p] in d.kept then Some(d.pending[p]) else None
  }

  /** The recovery key kept for a handle: named from the held key, or from the handle. */
  function KeptRecovery(d: Disk, h: Handle, cur: Option<Key>): Option<Key> {
    var own := Pointed(d, RecoveryPointer(h, cur));
    if own.Some? || cur.None? then own else Pointed(d, OfHandle(h))
  }

  /** The pointer of the key held counts first; without one, or when what it names is not kept, the handle's. */
  lemma KeptRecoveryExactly(d: Disk, h: Handle, cur: Option<Key>, key: Key)
    ensures KeptRecovery(d, h, cur) == Some(key) <==>
      && key in d.kept
      && if cur.Some? && OfKey(cur.value) in d.pending && d.pending[OfKey(cur.value)] in d.kept
         then d.pending[OfKey(cur.value)] == key
         else OfHandle(h) in d.pending && d.pending[OfHandle(h)] == key
  {
  }

  /** The handle's file holds the key, or a key whose recorded moves lead to it. */
  predicate Reaches(d: Disk, h: Handle, k: Key) {
    h in d.handles && (d.handles[h] == k || Load(d, h) == Some(k))
  }

  /** A key this host can never lose again. */
  predicate HeldForGood(d: Disk, k: Key) {
    k in d.kept && k in d.nexts
  }

  lemma {:induction false} FollowSame(d: Disk, d': Disk, k: Key, fuel: nat)
    requires d.moved == d'.moved && d.kept == d'.kept
    ensures Follow(d, k, fuel) == Follow(d', k, fuel)
    decreases fuel
  {
    if fuel > 0 && k in d.moved && d.moved[k] in d.kept {
      FollowSame(d, d', d.moved[k], fuel - 1);
    }
  }

  lemma LoadSame(d: Disk, d': Disk, h: Handle)
    requires d.handles == d'.handles && d.moved == d'.moved && d.kept == d'.kept
    ensures Load(d, h) == Load(d', h)
  {
    if h in d.handles {
      FollowSame(d, d', d.handles[h], MAX_MOVES);
    }
  }

  /** A pointer goes only while it still names the key. */
  function Dropped(d: Disk, p: Pointer, key: Key): Disk {
    if p in d.pending && d.pending[p] == key then d.(pending := d.pending - {p}) else d
  }

  function DroppedBoth(d: Disk, h: Handle, cur: Option<Key>, key: Key): Disk {
    var first := Dropped(d, OfHandle(h), key);
    if cur.Some? then Dropped(first, OfKey(cur.value), key) else first
  }

  /** A recovery in effect is where connects for the handle find it, and no longer pending. */
  predicate InEffect(d: Disk, h: Handle, cur: Option<Key>, key: Key) {
    && (if cur.None? || cur.value == key then Reaches(d, h, key) else cur.value in d.moved && d.moved[cur.value] == key)
    && Pointed(d, OfHandle(h)) != Some(key)
    && (cur.Some? ==> Pointed(d, OfKey(cur.value)) != Some(key))
  }

  /** A recovery to this key can be put in effect: the handle has no file of another key, or the key held has not
      moved to another one. */
  predicate Keepable(d: Disk, h: Handle, cur: Option<Key>, key: Key) {
    if cur.None? || cur.value == key then h in d.handles ==> Reaches(d, h, key)
    else cur.value in d.moved ==> d.moved[cur.value] == key
  }

  /** What a refusal of a connect is about; one may be about several of these, or none. */
  datatype Trouble = Trouble(noPin: bool, keyEvent: bool, identityKey: bool, badSignature: bool)

  /** How a request came back: not at all, as an answer read as a refusal, or as done, with the chain's head
      and the key the zone is said to publish. */
  datatype Reply = NoAnswer | Problem(trouble: Trouble) | Done(head: Head, pin: Option<Key>)

  /** What came back before the client reads it: a status, and a body that may not be JSON. */
  datatype Wire = Lost | Body(status: nat, json: Option<Reply>)

  /** A body that is not JSON is read as a refusal when its status says error, and as no answer otherwise. */
  function ReadWire(w: Wire): Reply {
    match w
    case Lost => NoAnswer
    case Body(_, Some(reply)) => reply
    case Body(status, None) => if status >= 400 then Problem(Trouble(false, false, false, false)) else NoAnswer
  }

  // ----- how a refused connect is healed ---------------------------------------------------------------

  /** What decides how a connect may be healed: whether it adopts, carries a key event's signature, carries a
      proof by the held key, and borrows another user's keys. */
  datatype Args = Args(adopt: bool, event: bool, proof: bool, borrowed: bool)

  datatype Arm = AsBirthPin | StripEvent | TrySuccessors | GiveUp

  predicate SignedAdopt(a: Args) {
    a.adopt && a.event
  }

  /** Which arm of the self-heal a refusal takes; an arm that would change nothing is passed over. */
  function HealArm(a: Args, t: Trouble): Arm {
    if t.noPin && a.proof then AsBirthPin
    else if t.keyEvent && !SignedAdopt(a) && a.event then StripEvent
    else if t.identityKey && a.proof && !a.borrowed then TrySuccessors
    else GiveUp
  }

  /** No refusal at all is healed exactly when the connect carries no proof by the held key, and carries an
      event's signature only with an adopt. */
  lemma HealedExactly(a: Args)
    ensures (forall t: Trouble :: HealArm(a, t) == GiveUp) <==> !a.proof && (a.event ==> a.adopt)
  {
    assert HealArm(a, Trouble(true, true, true, false)) != GiveUp || (!a.proof && (a.event ==> a.adopt));
  }

  datatype Failure = NotStored | Unreachable | Unsignable | NotDone | LinkedElsewhere | MovedElsewhere

  datatype Standing = Recovered | Pending

  /** What the service says of a recovery when it is read for it, and when it is asked for it. */
  datatype Recoverer = Recoverer(head: Option<Head>, reply: Reply)

  /** The service names this key as the identity's: in the head read, or in the answer to the request sent. */
  predicate Names(r: Recoverer, sent: bool, key: Key) {
    if sent then r.reply.Done? && r.reply.head.key == Some(key) else r.head.Some? && r.head.value.key == Some(key)
  }

  /** A request is sent exactly over a signable head that does not name the key yet. */
  predicate Requests(r: Recoverer, key: Key) {
    r.head.Some? && r.head.value.key != Some(key) && r.head.value.Signable()
  }

  /** What a run of recover leaves: a key kept already is the one sent; until it is in effect it is
      the one kept, and nothing else about the identity's key has changed. */
  predicate RecoveryResumes(before: Disk, after: Disk, h: Handle, r: Result<(Standing, Key), Failure>,
                            sent: Option<Key>)
  {
    var cur := Load(before, h);
    && (KeptRecovery(before, h, cur).Some? && sent.Some? ==> sent == KeptRecovery(before, h, cur))
    && if r.Ok? && r.value.0 == Recovered then InEffect(after, h, cur, r.value.1)
       else && (sent.Some? ==> KeptRecovery(after, h, cur) == sent)
            && before.handles == after.handles && before.moved == after.moved
  }

  datatype Birth = NotOffered | Offered(key: Key)

  /** The recovery kept is the one there was, the store's keys as they were; or a key no one has seen. */
  predicate RecoveryKept(before: State, after: Disk, h: Handle, cur: Option<Key>, key: Key) {
    && after.handles == before.disk.handles && after.moved == before.disk.moved
    && match KeptRecovery(before.disk, h, cur)
       case Some(k) => key == k && after.kept == before.disk.kept
       case None => Unseen(before, key) && after.kept == before.disk.kept + {key}
  }

  /** Keeping a recovery stands in the way of nothing. */
  lemma KeepableStays(before: State, after: Disk, h: Handle, key: Key)
    requires RecoveryKept(before, after, h, Load(before.disk, h), key)
    ensures Keepable(after, h, Load(before.disk, h), key) <==> Keepable(before.disk, h, Load(before.disk, h), key)
    ensures Load(before.disk, h) == Some(key) || Load(before.disk, h).None? ==>
              Keepable(before.disk, h, Load(before.disk, h), key)
  {
    LoadSecured(before, h);
    if Load(before.disk, h) == Some(key) {
      LoadSame(before.disk, after, h);
    }
  }

  /** How an undisturbed recover ends, with every write done. The one kept already is asked for; unless the head
      names it, or cannot be signed over. It is recovered exactly when the service names it and it can be put in
      effect, pending exactly when the service took it and names another, and fails for what it says. */
  predicate RecoveryEnds(before: Disk, h: Handle, service: Recoverer, r: Result<(Standing, Key), Failure>,
                         sent: Option<Key>)
  {
    var cur := Load(before, h);
    var kept := KeptRecovery(before, h, cur);
    && (kept.Some? ==>
          && (sent == if Requests(service, kept.value) then kept else None)
          && (r == Ok((Recovered, kept.value)) <==>
                Names(service, sent.Some?, kept.value) && Keepable(before, h, cur, kept.value)))
    && (sent.Some? ==>
          && (r == Ok((Recovered, sent.value)) <==>
                Names(service, true, sent.value) && Keepable(before, h, cur, sent.value))
          && (r == Ok((Pending, sent.value)) <==> service.reply.Done? && service.reply.head.key != Some(sent.value)))
    && (r.Err? ==>
          match r.error
          case Unreachable => service.head.None?
          case Unsignable => service.head.Some? && !service.head.value.Signable()
          case NotDone => !service.reply.Done?
          case MovedElsewhere => cur.Some? && cur.value in before.moved
          case _ => false)
  }

  /** A birth's end: the store, and whether the service took the birth and publishes the key. */
  datatype Born = Born(disk: Disk, published: bool)

  /** The key stays under the address, unless what came back read as a refusal and the file could be removed;
      whether it is published is the service's own affair. */
  function AfterBirth(before: Disk, addr: Handle, key: Key, took: bool, wire: Wire, removable: bool): Born {
    Born(if ReadWire(wire).Problem? && removable then before else before.(handles := before.handles[addr := key]), took)
  }

  /** A key the world is told of and this host cannot prove. */
  predicate Orphaned(b: Born, key: Key) {
    b.published && !OnDisk(b.disk, key)
  }

  /** A birth leaves an orphan exactly when the service took it, what came back was read as a refusal all the
      same, and the key's file was then removed. */
  lemma OrphanedExactly(before: Disk, addr: Handle, key: Key, took: bool, wire: Wire, removable: bool)
    requires addr !in before.handles && !OnDisk(before, key)
    ensures Orphaned(AfterBirth(before, addr, key, took, wire, removable), key)
            <==> took && ReadWire(wire).Problem? && removable
  {
    var after := AfterBirth(before, addr, key, took, wire, removable).disk;
    if after != before {
      assert after.handles[addr] == key;
    }
  }

  /** A page that is no JSON in place of the answer to a birth that was taken: orphaned exactly when its status says
      error and the file was removed for it. */
  lemma GatewayErrorOrphansBirth(status: nat, removed: bool)
    ensures var before := Disk(map[], {}, {}, map[], {}, map[]);
            Orphaned(AfterBirth(before, "2001:db8::1", Minted(0), true, Body(status, None), removed), Minted(0))
            <==> status >= 400 && removed
  {
    OrphanedExactly(Disk(map[], {}, {}, map[], {}, map[]), "2001:db8::1", Minted(0), true, Body(status, None), removed);
  }

  /** Nothing is offered where no key may be minted or a recovery is pending; a first key is under the
      handle afterwards exactly when it could be saved. */
  predicate FirstSettled(before: Disk, after: Disk, h: Handle, borrowed: bool, sent: Option<Key>, saved: bool) {
    match sent
    case None => after == before && Load(before, h).None? && (borrowed || Pointed(before, OfHandle(h)).Some?)
    case Some(key) =>
      if Load(before, h).Some? then after.handles == before.handles && Some(key) == Load(before, h)
      else !borrowed && after.handles == if saved then before.handles[h := key] else before.handles
  }

  /** The keys the service may have moved the identity to without this host seeing the answer, in the order
      they are tried: the next key once revealed, then a pending recovery. */
  function SuccessorList(d: Disk, cur: Key): (list: seq<Key>)
    ensures |list| <= 2
  {
    var revealed, kept := Revealed(d, cur), Pointed(d, OfKey(cur));
    (if revealed.Some? then [revealed.value] else []) + (if kept.Some? then [kept.value] else [])
  }

  /** The next key counts once it is stored and the rotation that reveals it was noted, the recovery while its key is
      kept. */
  lemma SuccessorsExactly(d: Disk, cur: Key, key: Key)
    ensures key in SuccessorList(d, cur) <==>
      || (key == NextOf(cur) && cur in d.nexts && cur in d.rotating)
      || (OfKey(cur) in d.pending && d.pending[OfKey(cur)] == key && key in d.kept)
  {
  }

  /** Those, and last the outgoing key a node that has not caught up may still pin. */
  function Candidates(d: Disk, cur: Key, outgoing: Option<Key>): (list: seq<Key>)
    ensures |SuccessorList(d, cur)| <= |list| <= |SuccessorList(d, cur)| + 1
  {
    SuccessorList(d, cur) + if outgoing.Some? then [outgoing.value] else []
  }

  /** The answer is a success that names the key tried, at the chain's head or as the pin. */
  predicate Proves(reply: Reply, key: Key) {
    reply.Done? && (reply.head.key == Some(key) || reply.pin == Some(key))
  }

  /** The history served shows the move, and the key has not moved elsewhere. */
  predicate RecordsMove(d: Disk, history: Option<seq<Event>>, cur: Key, succ: Key) {
    history.Some? && MoveInLog(history.value, cur, succ) && (cur in d.moved ==> d.moved[cur] == succ)
  }

  function KeysOf(keys: seq<Key>): set<Key> {
    set k <- keys
  }

  lemma SentStays(s: State, t: State)
    requires Leads(s, t)
    ensures s.sent <= t.sent
  {
    LeadsPreserves(s, t);
  }

  lemma CandidatesSecured(before: State, s: State, cur: Key, outgoing: Option<Key>, i: nat)
    requires Leads(before, s) && i < |Candidates(before.disk, cur, outgoing)|
    requires outgoing.Some? ==> Secured(before, outgoing.value)
    ensures Secured(s, Candidates(before.disk, cur, outgoing)[i])
  {
    var k := Candidates(before.disk, cur, outgoing)[i];
    assert i < |SuccessorList(before.disk, cur)| ==> OnDisk(before.disk, k);
    StillStored(before, s, k);
  }

  /** A first key that no store held is held afterwards exactly when it was saved. */
  lemma FirstHeldExactly(before: State, s: State, h: Handle, key: Key, saved: bool)
    requires key.Minted? && Unseen(before, key) && s.disk.kept == before.disk.kept
    requires s.disk.handles == if saved then before.disk.handles[h := key] else before.disk.handles
    ensures OnDisk(s.disk, key) <==> saved
  {
    if saved {
      assert s.disk.handles[h] == key;
    }
  }

  /** This host while a command runs; `sound` says that every write of the command succeeds. */
  class Host {
    const sound: bool
    var now: State

    constructor (s: State, sound: bool)
      ensures now == s && this.sound == sound
    {
      now, this.sound := s, sound;
    }

    /** Other commands on this host take any disciplined steps, unless the host is otherwise quiet. */
    method Others(quiet: bool)
      modifies this
      ensures Leads(old(now), now) && (quiet ==> now == old(now))
    {
      ghost var before := now;
      LeadsToItself(now);
      if !quiet {
        var acts: seq<Act> :| true;
        for i := 0 to |acts|
          invariant Leads(before, now)
        {
          if Allowed(now, acts[i]) {
            LeadsOne(now, acts[i]);
            LeadsThrough(before, now, Next(now, acts[i]));
            now := Next(now, acts[i]);
          }
        }
      }
    }

    /** One step of this command, after any number of the others'. A durable one may fail, and then
        nothing is written. */
    method Try(a: Act, mayFail: bool, quiet: bool) returns (ok: bool)
      requires Allowed(now, a)
      modifies this
      ensures Leads(old(now), now)
      ensures quiet ==> now == if ok then Next(old(now), a) else old(now)
      ensures !mayFail || sound ==> ok
      ensures ok && a.Keep? ==> a.key in now.disk.kept
      ensures ok && a.MintNext? ==> a.key in now.disk.nexts
      ensures ok && a.Announce? ==> a.key in now.sent
      ensures ok && (a.Save? || a.SaveFailed?) ==> Secured(now, a.key)
    {
      ghost var before := now;
      Others(quiet);
      if a.Announce? || a.Point? {
        StillStored(before, now, a.key);
      }
      ok :| !mayFail || sound ==> ok;
      if ok {
        ghost var settled := now;
        LeadsOne(now, a);
        now := Next(now, a);
        LeadsThrough(before, settled, now);
        if a.Save? {
          assert now.disk.handles[a.handle] in now.disk.handles.Values;
        }
      }
    }

    /** A key no store holds and no one was ever shown. */
    method Mint() returns (key: Key)
      ensures key.Minted? && Unseen(now, key)
    {
      SomeUnseen(now);
      var id: nat :| Unseen(now, Minted(id));
      return Minted(id);
    }

    /** The key to recover to: the one kept already, or a fresh one stored under its own digest and then
        named as the pending successor. */
    method RecoveryKey(h: Handle, cur: Option<Key>, quiet: bool) returns (heir: Option<Key>)
      modifies this
      ensures Leads(old(now), now)
      ensures heir.Some? ==> heir.value in now.disk.kept
      ensures sound ==> heir.Some?
      ensures quiet && heir.Some? ==> RecoveryKept(old(now), now.disk, h, cur, heir.value)
      ensures quiet && heir.Some? ==> KeptRecovery(now.disk, h, cur) == heir
      ensures quiet && KeptRecovery(old(now).disk, h, cur).Some? ==>
                heir == KeptRecovery(old(now).disk, h, cur) && now == old(now)
      ensures quiet ==> now.disk.handles == old(now).disk.handles && now.disk.moved == old(now).disk.moved
    {
      ghost var before := now;
      LeadsToItself(now);
      heir := KeptRecovery(now.disk, h, cur);
      if heir.Some? {
        return;
      }
      var key := Mint();
      var kept := Try(Keep(key), true, quiet);
      if !kept {
        return;
      }
      ghost var stored := now;
      var pointed := Try(Point(RecoveryPointer(h, cur), key), true, quiet);
      LeadsThrough(before, stored, now);
      StillStored(stored, now, key);
      if pointed {
        heir := Some(key);
      }
    }

    /** Names the key from every pointer, in order. */
    method PointAll(pointers: seq<Pointer>, key: Key, quiet: bool) returns (ok: bool)
      requires key in now.disk.kept
      modifies this
      ensures Leads(old(now), now)
      ensures sound ==> ok
      ensures quiet && ok ==> forall i | 0 <= i < |pointers| :: Pointed(now.disk, pointers[i]) == Some(key)
      ensures quiet ==> now == old(now).(disk := old(now).disk.(pending := now.disk.pending))
    {
      hide Leads;
      ghost var before := now;
      LeadsToItself(now);
      ok := true;
      for i := 0 to |pointers|
        invariant Leads(before, now) && key in now.disk.kept
        invariant quiet ==> forall j | 0 <= j < i :: Pointed(now.disk, pointers[j]) == Some(key)
        invariant quiet ==> now == before.(disk := before.disk.(pending := now.disk.pending))
      {
        ghost var read := now;
        ok := Try(Point(pointers[i], key), true, quiet);
        LeadsThrough(before, read, now);
        StillStored(read, now, key);
        if !ok {
          return;
        }
      }
    }

    method Forget(p: Pointer, key: Key, quiet: bool)
      modifies this
      ensures Leads(old(now), now)
      ensures quiet ==> now == old(now).(disk := Dropped(old(now).disk, p, key))
    {
      ghost var before := now;
      Others(quiet);
      if p in now.disk.pending && now.disk.pending[p] == key {
        ghost var read := now;
        var _ := Try(Unpoint(p), false, quiet);
        LeadsThrough(before, read, now);
      }
    }

    /** A link never replaces a handle's file: one that reaches the key already is success. */
    method Link(h: Handle, key: Key, quiet: bool) returns (r: Result<(), Failure>)
      modifies this
      ensures Leads(old(now), now)
      ensures quiet && r.Ok? ==> Reaches(now.disk, h, key)
      ensures quiet && r.Ok? ==>
                now == if h in old(now).disk.handles then old(now) else Next(old(now), LinkTo(h, key))
      ensures quiet && r.Err? ==> now == old(now)
      ensures r == Err(LinkedElsewhere) && quiet ==> h in now.disk.handles && !Reaches(now.disk, h, key)
      ensures quiet && sound ==> (r.Ok? <==> h in old(now).disk.handles ==> Reaches(old(now).disk, h, key))
      ensures sound && r.Err? ==> r.error == LinkedElsewhere
      ensures r.Ok? ==> Secured(now, key)
    {
      ghost var before := now;
      Others(quiet);
      ghost var read := now;
      LoadSecured(now, h);
      if h in now.disk.handles {
        assert now.disk.handles[h] in now.disk.handles.Values;
        return if Reaches(now.disk, h, key) then Ok(()) else Err(LinkedElsewhere);
      }
      Others(quiet);
      LeadsThrough(before, read, now);
      LoadSecured(now, h);
      if h in now.disk.handles {
        assert now.disk.handles[h] in now.disk.handles.Values;
        return if Reaches(now.disk, h, key) then Ok(()) else Err(LinkedElsewhere);
      }
      ghost var free := now;
      var ok: bool :| sound ==> ok;
      if !ok {
        return Err(NotStored);
      }
      LeadsOne(now, LinkTo(h, key));
      now := Next(now, LinkTo(h, key));
      LeadsThrough(before, free, now);
      assert now.disk.handles[h] in now.disk.handles.Values;
      return Ok(());
    }

    /** A key moves once: from a key already moved elsewhere, nothing is recorded. */
    method RecordMoved(from: Key, to: Key, quiet: bool) returns (r: Result<(), Failure>)
      modifies this
      ensures Leads(old(now), now)
      ensures r.Ok? ==> from in now.disk.moved && now.disk.moved[from] == to
      ensures quiet && sound ==> (r.Ok? <==> from in old(now).disk.moved ==> old(now).disk.moved[from] == to)
      ensures sound && r.Err? ==> r.error == MovedElsewhere
      ensures quiet ==> now == if r.Ok? then Next(old(now), Move(from, to)) else old(now)
    {
      ghost var before := now;
      Others(quiet);
      if from in now.disk.moved && now.disk.moved[from] != to {
        return Err(MovedElsewhere);
      }
      ghost var free := now;
      var ok: bool :| sound ==> ok;
      if !ok {
        return Err(NotStored);
      }
      LeadsOne(now, Move(from, to));
      now := Next(now, Move(from, to));
      LeadsThrough(before, free, now);
      return Ok(());
    }

    method ForgetRecovery(h: Handle, cur: Option<Key>, key: Key, quiet: bool)
      modifies this
      ensures Leads(old(now), now)
      ensures quiet ==> now == old(now).(disk := DroppedBoth(old(now).disk, h, cur, key))
    {
      ghost var before := now;
      Forget(OfHandle(h), key, quiet);
      if cur.Some? {
        ghost var first := now;
        Forget(OfKey(cur.value), key, quiet);
        LeadsThrough(before, first, now);
      }
    }

    /** Stores a recovery in effect where this host's connects find it, and only then forgets the pointers. */
    method KeepRecovered(h: Handle, cur: Option<Key>, key: Key, quiet: bool) returns (r: Result<(), Failure>)
      modifies this
      ensures Leads(old(now), now)
      ensures quiet && r.Ok? ==> InEffect(now.disk, h, cur, key)
      ensures quiet && r.Err? ==> now == old(now)
      ensures quiet ==> now.disk.handles.Keys <= old(now).disk.handles.Keys + {h}
      ensures quiet && sound ==> (r.Ok? <==> Keepable(old(now).disk, h, cur, key))
      ensures quiet && sound && r.Err? ==>
                r.error == if cur.None? || cur.value == key then LinkedElsewhere else MovedElsewhere
    {
      hide Leads;
      ghost var before := now;
      if cur.None? || cur.value == key {
        r := Link(h, key, quiet);
      } else {
        r := RecordMoved(cur.value, key, quiet);
      }
      if r.Ok? {
        ghost var stored := now;
        ForgetRecovery(h, cur, key, quiet);
        LeadsThrough(before, stored, now);
        if quiet {
          LoadSame(stored.disk, now.disk, h);
        }
      }
    }

    /** Puts the key, and the commitment to its next key, on the wire. */
    method Disclose(key: Key, commits: bool, quiet: bool)
      requires Secured(now, key) && (commits ==> key in now.disk.nexts)
      modifies this
      ensures Leads(old(now), now) && key in now.sent
      ensures quiet ==> now == Next(old(now), Announce(key, commits))
    {
      var _ := Try(Announce(key, commits), false, quiet);
    }

    /** The recovery key and its next key are stored, and the key pending, before anything is sent. */
    method PrepareRecovery(h: Handle, cur: Option<Key>, quiet: bool) returns (heir: Option<Key>)
      modifies this
      ensures Leads(old(now), now)
      ensures heir.Some? ==> HeldForGood(now.disk, heir.value)
      ensures sound ==> heir.Some?
      ensures quiet && heir.Some? ==> RecoveryKept(old(now), now.disk, h, cur, heir.value)
      ensures quiet && heir.Some? ==> KeptRecovery(now.disk, h, cur) == heir
      ensures quiet && KeptRecovery(old(now).disk, h, cur).Some? && heir.Some? ==>
                heir == KeptRecovery(old(now).disk, h, cur)
      ensures quiet ==> now.disk.handles == old(now).disk.handles && now.disk.moved == old(now).disk.moved
    {
      ghost var before := now;
      heir := RecoveryKey(h, cur, quiet);
      if heir.Some? {
        ghost var stored := now;
        var minted := Try(MintNext(heir.value), true, quiet);
        LeadsThrough(before, stored, now);
        StillStored(stored, now, heir.value);
        if !minted {
          heir := None;
        }
      }
    }

    /** Asks for the recovery, unless the head shows it in effect from a request whose answer was lost. */
    method RequestRecovery(key: Key, service: Recoverer, quiet: bool) returns (r: Result<Standing, Failure>, sent: bool)
      requires HeldForGood(now.disk, key)
      modifies this
      ensures Leads(old(now), now)
      ensures sent ==> key in now.sent
      ensures sent <==> Requests(service, key)
      ensures r == Ok(Recovered) <==> Names(service, sent, key)
      ensures r == Err(Unreachable) <==> service.head.None?
      ensures r == Err(Unsignable) <==>
                service.head.Some? && service.head.value.key != Some(key) && !service.head.value.Signable()
      ensures r == Err(NotDone) <==> sent && !service.reply.Done?
      ensures r.Err? ==> r.error in {Unreachable, Unsignable, NotDone}
      ensures r == Ok(Pending) <==> sent && service.reply.Done? && service.reply.head.key != Some(key)
      ensures quiet ==> now.disk == old(now).disk
    {
      hide Leads;
      ghost var before := now;
      Others(quiet);
      StillStored(before, now, key);
      sent := false;
      if service.head.None? {
        return Err(Unreachable), sent;
      }
      if service.head.value.key == Some(key) {
        return Ok(Recovered), sent;
      }
      if !service.head.value.Signable() {
        return Err(Unsignable), sent;
      }
      ghost var read := now;
      Disclose(key, true, quiet);
      LeadsThrough(before, read, now);
      sent := true;
      match service.reply {
        case Done(head, _) => r := Ok(if head.key == Some(key) then Recovered else Pending);
        case _ => r := Err(NotDone);
      }
    }

    /** The owner's recovery. `sent` is the key it put on the wire, if it got that far. Left unfinished,
        it leaves the key pending for the next run, which sends that very key again. */
    method RecoverIdentity(h: Handle, service: Recoverer, quiet: bool)
      returns (r: Result<(Standing, Key), Failure>, sent: Option<Key>)
      modifies this
      ensures Leads(old(now), now)
      ensures sent.Some? ==>
                HeldForGood(now.disk, sent.value) && sent.value in now.sent && Requests(service, sent.value)
      ensures r.Ok? ==> HeldForGood(now.disk, r.value.1) && (sent.Some? ==> sent.value == r.value.1)
      ensures r.Ok? ==> (r.value.0 == Recovered <==> Names(service, sent.Some?, r.value.1))
      ensures sound && sent.None? ==> service.head.Some? ==>
                !service.head.value.Signable()
                || (service.head.value.key.Some? && HeldForGood(now.disk, service.head.value.key.value))
      ensures quiet ==> RecoveryResumes(old(now).disk, now.disk, h, r, sent)
      ensures quiet && sound ==> RecoveryEnds(old(now).disk, h, service, r, sent)
    {
      ghost var before := now;
      var cur := Load(now.disk, h);
      var prepared := PrepareRecovery(h, cur, quiet);
      if prepared.None? {
        return Err(NotStored), None;
      }
      var key := prepared.value;
      ghost var ready := now;
      var asked, wasSent := RequestRecovery(key, service, quiet);
      LeadsThrough(before, ready, now);
      StillStored(ready, now, key);
      sent := if wasSent then Some(key) else None;
      if asked != Ok(Recovered) {
        return match asked case Ok(standing) => Ok((standing, key)) case Err(why) => Err(why), sent;
      }
      ready := now;
      if quiet {
        KeepableStays(before, ready.disk, h, key);
      }
      var stored := KeepRecovered(h, cur, key, quiet);
      LeadsThrough(before, ready, now);
      StillStored(ready, now, key);
      return match stored case Ok(_) => Ok((Recovered, key)) case Err(why) => Err(why), sent;
    }

    /** The birth window ends: the key's file goes, while it still holds this key and can be removed. */
    method DeclineNewborn(addr: Handle, key: Key, quiet: bool) returns (removed: bool)
      modifies this
      ensures Leads(old(now), now) && (sound ==> removed)
      ensures quiet ==> now == if removed then Next(old(now), Unlink(addr, key)) else old(now)
    {
      removed := Try(Unlink(addr, key), true, quiet);
    }

    /** A key that cannot be kept is not offered. */
    method NewbornKey(addr: Handle, quiet: bool) returns (key: Option<Key>)
      modifies this
      ensures Leads(old(now), now)
      ensures key.Some? ==> Secured(now, key.value)
      ensures quiet && key.None? ==> now == old(now)
      ensures quiet && sound && addr !in old(now).disk.handles ==> key.Some?
      ensures quiet && key.Some? && addr !in old(now).disk.handles ==>
        && Unseen(old(now), key.value)
        && now == old(now).(disk := old(now).disk.(handles := old(now).disk.handles[addr := key.value]))
    {
      var newborn := Mint();
      var linked := Link(addr, newborn, quiet);
      key := if linked.Ok? then Some(newborn) else None;
    }

    /** The connect of an agent this command created and holds no key for: the birth key is linked under
        the address before it is sent, not sent at all when it cannot be, and removed, if its file can be, on
        what reads as a refusal. Whether the service took the birth is its own affair. */
    method BirthConnect(addr: Handle, ghost took: bool, wire: Wire, quiet: bool) returns (birth: Birth, removed: bool)
      modifies this
      ensures Leads(old(now), now)
      ensures birth.Offered? ==> Secured(now, birth.key) && birth.key in now.sent
      ensures removed ==> birth.Offered? && ReadWire(wire).Problem?
      ensures quiet && birth.NotOffered? ==> now == old(now)
      ensures quiet && addr !in old(now).disk.handles && birth.Offered? ==>
        && now.disk == AfterBirth(old(now).disk, addr, birth.key, took, wire, removed).disk
        && (Orphaned(Born(now.disk, took), birth.key) <==> took && removed)
      ensures sound && (addr !in old(now).disk.handles && quiet) ==>
        birth.Offered? && (removed <==> ReadWire(wire).Problem?)
    {
      hide Leads;
      ghost var before := now;
      removed := false;
      var newborn := NewbornKey(addr, quiet);
      if newborn.None? {
        return NotOffered, removed;
      }
      var key := newborn.value;
      ghost var stored := now;
      Disclose(key, false, quiet);
      LeadsThrough(before, stored, now);
      StillStored(stored, now, key);
      if ReadWire(wire).Problem? {
        stored := now;
        removed := DeclineNewborn(addr, key, quiet);
        LeadsThrough(before, stored, now);
        StillStored(stored, now, key);
      }
      if quiet && addr !in before.disk.handles {
        assert before.disk.handles[addr := key] - {addr} == before.disk.handles;
        OrphanedExactly(before.disk, addr, key, took, wire, removed);
      }
      return Offered(key), removed;
    }

    /** Loads the handle's key, or mints one and tries to save it: a failed save is not an error. */
    method LoadOrGenerate(h: Handle, quiet: bool) returns (key: Key, saved: bool)
      modifies this
      ensures Leads(old(now), now) && Secured(now, key) && (sound ==> saved)
      ensures quiet && Load(old(now).disk, h).Some? ==> now == old(now) && Some(key) == Load(now.disk, h)
      ensures quiet && Load(old(now).disk, h).None? ==>
        && key.Minted? && Unseen(old(now), key)
        && now.disk == (if saved then old(now).disk.(handles := old(now).disk.handles[h := key]) else old(now).disk)
        && now == Next(old(now), if saved then Save(h, key) else SaveFailed(key))
    {
      ghost var before := now;
      Others(quiet);
      ghost var read := now;
      LoadSecured(now, h);
      var held := Load(now.disk, h);
      if held.Some? {
        return held.value, true;
      }
      key := Mint();
      saved := Try(Save(h, key), true, quiet);
      LeadsThrough(before, read, now);
      if !saved {
        read := now;
        var _ := Try(SaveFailed(key), false, quiet);
        LeadsThrough(before, read, now);
      }
    }

    /** The connect of a name with no address yet: the handle's key, or a first one, is sent with a
        commitment to its next key when that is stored, and once more without when that is refused.
        `asked` says of each request whether it carried the commitment. */
    method FirstConnect(h: Handle, borrowed: bool, reply: Reply, quiet: bool)
      returns (sent: Option<Key>, saved: bool, asked: seq<bool>)
      modifies this
      ensures Leads(old(now), now)
      ensures sent.Some? ==> Secured(now, sent.value) && sent.value in now.sent
      ensures sent.None? <==> asked == []
      ensures sent.Some? ==>
        asked == if asked[0] && reply.Problem? && reply.trouble.keyEvent then [true, false] else [asked[0]]
      ensures sent.Some? && asked[0] ==> !borrowed && sent.value in now.disk.nexts
      ensures sound ==> saved && (sent.Some? ==> asked[0] == !borrowed)
      ensures quiet ==> FirstSettled(old(now).disk, now.disk, h, borrowed, sent, saved)
      ensures quiet && Load(old(now).disk, h).None? && sent.Some? ==> (OnDisk(now.disk, sent.value) <==> saved)
    {
      hide Leads;
      ghost var before := now;
      LeadsToItself(now);
      saved, asked := true, [];
      var held := Load(now.disk, h);
      if held.None? && (borrowed || Pointed(now.disk, OfHandle(h)).Some?) {
        return None, saved, asked;
      }
      var key;
      if held.Some? {
        LoadSecured(now, h);
        key := held.value;
      } else {
        key, saved := LoadOrGenerate(h, quiet);
      }
      ghost var stored := now;
      var commits := false;
      if !borrowed {
        commits := Try(MintNext(key), true, quiet);
        LeadsThrough(before, stored, now);
        StillStored(stored, now, key);
      }
      stored := now;
      asked := Offer(key, commits, reply, quiet);
      LeadsThrough(before, stored, now);
      StillStored(stored, now, key);
      if quiet && held.None? {
        FirstHeldExactly(before, now, h, key, saved);
      }
      return Some(key), saved, asked;
    }

    /** The request, and once more without the commitment when the refusal is about that. */
    method Offer(key: Key, commits: bool, reply: Reply, quiet: bool) returns (asked: seq<bool>)
      requires Secured(now, key) && (commits ==> key in now.disk.nexts)
      modifies this
      ensures Leads(old(now), now) && Secured(now, key) && key in now.sent
      ensures quiet ==> now.disk == old(now).disk
      ensures asked == if commits && reply.Problem? && reply.trouble.keyEvent then [true, false] else [commits]
    {
      hide Leads;
      ghost var before := now;
      Disclose(key, commits, quiet);
      StillStored(before, now, key);
      asked := [commits];
      if reply.Problem? && HealArm(Args(false, commits, false, false), reply.trouble) == StripEvent {
        ghost var first := now;
        Disclose(key, false, quiet);
        LeadsThrough(before, first, now);
        StillStored(first, now, key);
        asked := asked + [false];
      }
    }

    /** One try: the successor's proof is sent. */
    method TryOne(succ: Key, ghost tried: seq<Key>, quiet: bool)
      requires Secured(now, succ) && KeysOf(tried) <= now.sent
      modifies this
      ensures Leads(old(now), now) && KeysOf(tried + [succ]) <= now.sent
      ensures quiet ==> now == Next(old(now), Announce(succ, false))
    {
      hide Leads;
      ghost var before := now;
      Disclose(succ, false, quiet);
      LeadsPreserves(before, now);
      assert KeysOf(tried + [succ]) == KeysOf(tried) + {succ};
    }

    /** The proof by the held key was refused: each key the service may have moved to unseen is tried once, then
        the outgoing key. The move is recorded only when the answer names it and the history then served shows
        it; that the outgoing key proved the connect records nothing. What the service answers to each try, and
        the history it serves, are given. */
    method HealWithSuccessor(cur: Key, outgoing: Option<Key>, replies: nat -> Reply, history: Option<seq<Event>>,
                             quiet: bool)
      returns (healed: Option<Key>, tried: seq<Key>, recorded: bool)
      requires outgoing.Some? ==> Secured(now, outgoing.value)
      modifies this
      ensures Leads(old(now), now)
      ensures |tried| <= 3 && KeysOf(tried) <= now.sent
      ensures forall i | 0 <= i < |tried| :: Proves(replies(i), tried[i]) <==> healed.Some? && i == |tried| - 1
      ensures healed.Some? ==> tried != [] && healed.value == tried[|tried| - 1]
      ensures recorded ==> healed.Some? && history.Some? && MoveInLog(history.value, cur, healed.value)
      ensures recorded ==> |tried| <= |SuccessorList(old(now).disk, cur)|
      ensures quiet && sound && healed.Some? && |tried| <= |SuccessorList(old(now).disk, cur)| ==>
                (recorded <==> RecordsMove(old(now).disk, history, cur, healed.value))
      ensures recorded ==> cur in now.disk.moved && now.disk.moved[cur] == healed.value
      ensures tried <= Candidates(old(now).disk, cur, outgoing)
      ensures healed.None? ==> tried == Candidates(old(now).disk, cur, outgoing)
      ensures quiet ==>
        && now.sent == old(now).sent + KeysOf(tried)
        && now.disk == if recorded then Next(old(now), Move(cur, healed.value)).disk else old(now).disk
    {
      hide Leads, MoveInLog, Proves, SuccessorList, Candidates, Secured, RecordMove, RecordsMove, Allowed;
      ghost var before := now;
      LeadsToItself(now);
      var candidates, successors := Candidates(now.disk, cur, outgoing), |SuccessorList(now.disk, cur)|;
      tried := [];
      assert KeysOf([]) == {};
      for i := 0 to |candidates|
        invariant |candidates| <= 3 && Leads(before, now) && tried == candidates[..i] && KeysOf(tried) <= now.sent
        invariant forall j | 0 <= j < i :: !Proves(replies(j), candidates[j])
        invariant quiet ==> now.disk == before.disk && now.sent == before.sent + KeysOf(tried)
      {
        CandidatesSecured(before, now, cur, outgoing, i);
        ghost var settled := now;
        TryOne(candidates[i], tried, quiet);
        LeadsThrough(before, settled, now);
        assert KeysOf(tried + [candidates[i]]) == KeysOf(tried) + {candidates[i]};
        tried := tried + [candidates[i]];
        if Proves(replies(i), candidates[i]) {
          if i == successors {
            return Some(candidates[i]), tried, false;
          }
          settled := now;
          recorded := RecordSeen(cur, candidates[i], history, quiet);
          LeadsThrough(before, settled, now);
          SentStays(settled, now);
          return Some(candidates[i]), tried, recorded;
        }
      }
      assert candidates[..|candidates|] == candidates;
      return None, tried, false;
    }

    /** A move for good only when the history served walks from the held key to the other. */
    method RecordSeen(cur: Key, succ: Key, history: Option<seq<Event>>, quiet: bool) returns (recorded: bool)
      modifies this
      ensures Leads(old(now), now)
      ensures recorded ==> history.Some? && MoveInLog(history.value, cur, succ)
      ensures recorded ==> cur in now.disk.moved && now.disk.moved[cur] == succ
      ensures quiet && sound ==> (recorded <==> RecordsMove(old(now).disk, history, cur, succ))
      ensures quiet ==> now == if recorded then Next(old(now), Move(cur, succ)) else old(now)
    {
      LeadsToItself(now);
      if history.None? || !MoveInLog(history.value, cur, succ) {
        return false;
      }
      var r := RecordMoved(cur, succ, quiet);
      return r.Ok?;
    }
  }
}
