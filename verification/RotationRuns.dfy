/**
 Any number of rotate runs, connect-time commits and heals, interleaved on one host that is the only holder
 of its keys, against a service that appends an event only onto its head. A request may be delivered
 late, more than once or never, an answer may be lost, a process may die at any point, and a history
 may be read from a node that lags, with the chain growing between its pages. Other identities of the
 host keep their keys and moves in the same store, and their commands may change it at any time.
 */
module RotationRuns {
  import opened Wrappers
  import opened KeyMoves

  datatype Sys = Sys(address: Handle, disk: Disk, chain: seq<Event>, procs: map<nat, Proc>, wire: set<Event>)

  datatype Action =
    | StartRotate(pid: nat)
    | StartCommit(pid: nat, seen: nat)
    | StartHeal(pid: nat)
    | Read(pid: nat, first: nat, last: nat)
    | Take(pid: nat)
    | Hear(pid: nat)
    | Spurn(pid: nat, code: Code)
    | Deliver(message: Event)
    | Crash(pid: nat)
    | Elsewhere(disk: Disk)

  /** The birth key a key descends from. */
  function Seed(k: Key): nat {
    match k case Minted(id) => id case NextOf(of) => Seed(of)
  }

  /** What another identity's command may do to the store: anything, but for this line's keys and moves, and
      a key once kept stays. */
  predicate LeavesAlone(d: Disk, d': Disk, line: nat) {
    && (forall h <- d.handles :: Seed(d.handles[h]) == line ==> h in d'.handles && d'.handles[h] == d.handles[h])
    && d.kept <= d'.kept && d.nexts <= d'.nexts
    && (forall k <- d.moved :: Seed(k) == line ==> k in d'.moved && d'.moved[k] == d.moved[k])
    && (forall k <- d'.moved :: Seed(k) == line ==> k in d.moved)
  }

  predicate Waiting(p: Proc) {
    p.RotateWait? || p.CommitWait?
  }

  function Put(s: Sys, pid: nat, input: Input): Sys
    requires pid in s.procs
  {
    var (disk, p) := Advance(s.disk, s.procs[pid], input);
    var sent := Sends(s.procs[pid], p);
    s.(disk := disk, procs := s.procs[pid := p], wire := s.wire + (if sent.Some? then {sent.value} else {}))
  }

  function Start(s: Sys, pid: nat, p: Proc): Sys {
    if pid in s.procs then s else s.(procs := s.procs[pid := p])
  }

  /** One action of the whole system; an action that is not possible changes nothing. */
  function Next(s: Sys, a: Action): Sys {
    match a
    case StartRotate(pid) =>
      var cur := Load(s.disk, s.address);
      if cur.Some? then Start(s, pid, RotateRead(cur.value, 0)) else s
    case StartCommit(pid, seen) =>
      var cur := Load(s.disk, s.address);
      if cur.Some? && seen <= |s.chain| && HeadOf(s.chain[..seen]).mode == Sealed
         && HeadOf(s.chain[..seen]).key == cur
      then Start(s, pid, CommitMint(cur.value, HeadOf(s.chain[..seen]), None)) else s
    case StartHeal(pid) =>
      var cur := Load(s.disk, s.address);
      if cur.Some? && Revealed(s.disk, cur.value).Some? then Start(s, pid, HealRead(cur.value)) else s
    case Read(pid, first, last) =>
      if pid in s.procs && first <= last <= |s.chain|
      then Put(s, pid, Page(History(s.chain[..last], HeadOf(s.chain[..first])))) else s
    case Take(pid) => if pid in s.procs then Put(s, pid, Go) else s
    case Hear(pid) =>
      if pid in s.procs && Waiting(s.procs[pid]) then
        var m := s.procs[pid].sent;
        Put(s, pid, Heard(Answer(s.chain, m))).(chain := Served(s.chain, m))
      else s
    case Spurn(pid, code) => if pid in s.procs && Waiting(s.procs[pid]) then Put(s, pid, Heard(Refused(code))) else s
    case Deliver(m) => if m in s.wire then s.(chain := Served(s.chain, m)) else s
    case Crash(pid) => s.(procs := s.procs - {pid})
    case Elsewhere(d) =>
      if s.address in s.disk.handles && LeavesAlone(s.disk, d, Seed(s.disk.handles[s.address]))
      then s.(disk := d) else s
  }

  function Run(s: Sys, actions: seq<Action>): Sys
    decreases |actions|
  {
    if actions == [] then s else Next(Run(s, actions[..|actions| - 1]), actions[|actions| - 1])
  }

  // ----- the line of keys one host walks --------------------------------------------------

  function Rank(k: Key): nat {
    match k case Minted(_) => 0 case NextOf(of) => 1 + Rank(of)
  }

  lemma {:induction false} SameRankSameKey(j: Key, k: Key)
    requires Seed(j) == Seed(k) && Rank(j) == Rank(k)
    ensures j == k
  {
    if j.NextOf? {
      SameRankSameKey(j.of, k.of);
    }
  }

  // ----- the invariant ---------------------------------------------------------------------

  /** The keys of one line that moved, whatever other identities' keys moved beside them. */
  function MovesOn(moved: map<Key, Key>, line: nat): set<Key> {
    set k <- moved | Seed(k) == line
  }

  function Moves(d: Disk, line: nat): nat {
    |MovesOn(d.moved, line)|
  }

  /** How far along its line the host's record reaches, as a load reads it. */
  function Reach(d: Disk, line: nat): nat {
    if Moves(d, line) <= MAX_MOVES then Moves(d, line) else MAX_MOVES
  }

  /** Moves are recorded one after another along the line, each with its key stored. */
  ghost predicate RecordInv(d: Disk, line: nat) {
    && (forall k <- d.moved :: Seed(k) == line ==>
          Rank(k) < Moves(d, line) && d.moved[k] == NextOf(k) && NextOf(k) in d.kept)
    && (forall k: Key :: Seed(k) == line && Rank(k) < Moves(d, line) ==> k in d.moved)
  }

  /** An event this host's keys carry: its key on the line, its commitment to that key's stored next key. */
  predicate OwnEvent(d: Disk, line: nat, e: Event) {
    Seed(e.key) == line && (e.next.Some? ==> e.next == Some(NextOf(e.key)) && e.key in d.nexts)
  }

  /** One event follows another: a commitment keeps the key, a rotation reveals the committed one. */
  predicate Follows(e: Event, f: Event) {
    && f.sequence == e.sequence + 1 && f.prior == After(e) && !f.Sealed()
    && if f.kind == Ric then f.key == e.key && e.Sealed() else f.kind == Rot && e.next == Some(f.key)
  }

  predicate ChainInv(d: Disk, line: nat, chain: seq<Event>) {
    && chain != [] && chain[0].sequence == 0 && chain[0].key == Minted(line)
    && (forall e <- chain :: OwnEvent(d, line, e))
    && (forall i | 0 < i < |chain| :: Follows(chain[i - 1], chain[i]))
    && Moves(d, line) <= Rank(Tip(chain)) <= Reach(d, line) + 1
  }

  function Tip(chain: seq<Event>): Key
    requires chain != []
  {
    chain[|chain| - 1].key
  }

  /** A key a process holds as its own: recorded now or before, and on disk. */
  predicate Held(d: Disk, line: nat, cur: Key) {
    Seed(cur) == line && Rank(cur) <= Reach(d, line) && OnDisk(d, cur)
  }

  /** What a statement on the wire says: sent by a holder, its key and its commitment both on disk. */
  predicate MessageInv(d: Disk, line: nat, m: Event) {
    && OwnEvent(d, line, m) && m.next.Some? && OnDisk(d, m.key)
    && (m.kind == Ric || m.kind == Rot)
    && Rank(m.key) <= Reach(d, line) + (if m.kind == Rot then 1 else 0)
  }

  predicate ProcInv(d: Disk, line: nat, tip: nat, wire: set<Event>, p: Proc) {
    match p
    case RotateRead(cur, _) => Held(d, line, cur)
    case RotateMint(cur, _, _, _) => Held(d, line, cur) && cur in d.nexts
    case RotateMark(cur, _, _, _) => Held(d, line, cur) && cur in d.nexts && NextOf(cur) in d.nexts
    case RotateSend(cur, _, _, _) => Held(d, line, cur) && cur in d.nexts && NextOf(cur) in d.nexts
    case RotateWait(cur, _, _, m) => Held(d, line, cur) && m in wire
    case RotateRecord(cur) => Held(d, line, cur) && Rank(cur) < tip
    case CommitMint(cur, _, _) => Held(d, line, cur)
    case CommitSend(cur, _, _, _) => Held(d, line, cur) && cur in d.nexts
    case CommitWait(cur, _, _, m) => Held(d, line, cur) && cur in d.nexts && m in wire
    case CommitReread(cur, _) => Held(d, line, cur) && cur in d.nexts
    case HealRead(cur) => Held(d, line, cur)
    case Ended(_) => true
  }

  ghost predicate InvOn(s: Sys, line: nat) {
    && s.address in s.disk.handles && s.disk.handles[s.address] == Minted(line)
    && RecordInv(s.disk, line)
    && ChainInv(s.disk, line, s.chain)
    && (forall m <- s.wire :: MessageInv(s.disk, line, m))
    && (forall pid <- s.procs :: ProcInv(s.disk, line, Rank(Tip(s.chain)), s.wire, s.procs[pid]))
  }

  /** The identity was born with the key under its address; its key has not moved and nothing of it is running.
      Other identities may have moved any number of times. */
  ghost predicate Born(s: Sys, line: nat) {
    && s.address in s.disk.handles && s.disk.handles[s.address] == Minted(line)
    && MovesOn(s.disk.moved, line) == {} && s.procs == map[] && s.wire == {}
    && |s.chain| == 1 && s.chain[0].sequence == 0 && s.chain[0].key == Minted(line)
    && OwnEvent(s.disk, line, s.chain[0])
  }

  // ----- what a load reads ------------------------------------------------------------------

  lemma {:induction false} FollowReaches(d: Disk, line: nat, k: Key, fuel: nat)
    requires RecordInv(d, line) && Seed(k) == line && Rank(k) <= Moves(d, line)
    ensures Seed(Follow(d, k, fuel)) == line
    ensures Rank(Follow(d, k, fuel)) == if Rank(k) + fuel <= Moves(d, line) then Rank(k) + fuel else Moves(d, line)
    ensures Follow(d, k, fuel) == k || Follow(d, k, fuel) in d.kept
    decreases fuel
  {
    if fuel > 0 && k in d.moved {
      FollowReaches(d, line, NextOf(k), fuel - 1);
    }
  }

  lemma {:induction false} LoadReads(s: Sys, line: nat)
    requires InvOn(s, line)
    ensures var cur := Load(s.disk, s.address);
            cur.Some? && Held(s.disk, line, cur.value) && Rank(cur.value) == Reach(s.disk, line)
  {
    FollowReaches(s.disk, line, Minted(line), MAX_MOVES);
    assert Minted(line) in s.disk.handles.Values;
  }

  // ----- every action keeps the invariant ----------------------------------------------------

  lemma {:induction false} ServedKeeps(s: Sys, line: nat, m: Event)
    requires InvOn(s, line) && MessageInv(s.disk, line, m)
    ensures InvOn(s.(chain := Served(s.chain, m)), line)
    ensures Rank(Tip(s.chain)) <= Rank(Tip(Served(s.chain, m)))
  {
    if Accepts(s.chain, m) {
      var last := s.chain[|s.chain| - 1];
      assert OwnEvent(s.disk, line, last) && Follows(last, m);
    }
  }

  /** What the store may become while processes run: it only grows, and the record only advances. */
  ghost predicate Grows(d: Disk, d': Disk, line: nat) {
    && (forall h <- d.handles :: Seed(d.handles[h]) == line ==> h in d'.handles && d'.handles[h] == d.handles[h])
    && d.kept <= d'.kept && d.nexts <= d'.nexts && Moves(d, line) <= Moves(d', line)
  }

  /** A key of the line on disk stays there. */
  lemma GrowthHolds(d: Disk, d': Disk, line: nat, k: Key)
    requires Grows(d, d', line) && Seed(k) == line && OnDisk(d, k)
    ensures OnDisk(d', k)
  {
    hide Moves, Seed;
    if k in d.handles.Values {
      var h :| h in d.handles && d.handles[h] == k;
      assert d'.handles[h] in d'.handles.Values;
    }
  }

  lemma {:induction false} GrowthKeeps(s: Sys, line: nat, d: Disk)
    requires InvOn(s, line) && Grows(s.disk, d, line) && RecordInv(d, line) && Moves(d, line) <= Rank(Tip(s.chain))
    ensures InvOn(s.(disk := d), line)
  {
    hide Moves, OnDisk;
    forall k | OnDisk(s.disk, k) && Seed(k) == line ensures OnDisk(d, k) {
      GrowthHolds(s.disk, d, line, k);
    }
    assert forall e <- s.chain :: OwnEvent(s.disk, line, e);
    forall m <- s.wire ensures MessageInv(d, line, m) {
      assert MessageInv(s.disk, line, m);
    }
    forall pid <- s.procs ensures ProcInv(d, line, Rank(Tip(s.chain)), s.wire, s.procs[pid]) {
      assert ProcInv(s.disk, line, Rank(Tip(s.chain)), s.wire, s.procs[pid]);
    }
  }

  /** What one action keeps of the store and promises about the process and what it sends. */
  ghost predicate Kept(d: Disk, line: nat, tip: nat, wire: set<Event>, p: Proc, r: (Disk, Proc)) {
    var sent := Sends(p, r.1);
    && Grows(d, r.0, line) && RecordInv(r.0, line) && Moves(r.0, line) <= tip
    && (sent.Some? ==> MessageInv(r.0, line, sent.value))
    && ProcInv(r.0, line, tip, wire + (if sent.Some? then {sent.value} else {}), r.1)
  }

  /** What is read or heard names no key further along than the chain's. */
  predicate Honest(tip: nat, input: Input) {
    && (input.Page? && input.history.events != [] ==> Rank(Tip(input.history.events)) <= tip)
    && (input.Heard? && input.reply.Answered? && input.reply.head.key.Some? ==> Rank(input.reply.head.key.value) <= tip)
  }

  lemma {:induction false} RecordKeeps(d: Disk, line: nat, tip: nat, wire: set<Event>, p: Proc)
    requires RecordInv(d, line) && ProcInv(d, line, tip, wire, p) && Moves(d, line) <= tip && p.RotateRecord?
    ensures Kept(d, line, tip, wire, p, Advance(d, p, Go))
  {
    if p.cur !in d.moved {
      RecordAdvances(d, line, p.cur);
    }
  }

  lemma {:induction false} DecidedKeeps(d: Disk, line: nat, tip: nat, wire: set<Event>, cur: Key, attempt: nat,
                                        h: History)
    requires Held(d, line, cur)
    ensures ProcInv(d, line, tip, wire, Decided(d, cur, attempt, h))
    ensures var p := Decided(d, cur, attempt, h); p.Ended? || p.CommitMint? || p.RotateMint?
  {
  }

  /** An action that changes no file and sends nothing keeps what it keeps of the process. */
  lemma {:induction false} UnstoredKeeps(d: Disk, line: nat, tip: nat, wire: set<Event>, p: Proc, p': Proc)
    requires RecordInv(d, line) && Moves(d, line) <= tip && Sends(p, p').None? && ProcInv(d, line, tip, wire, p')
    ensures Kept(d, line, tip, wire, p, (d, p'))
  {
    hide Moves;
    assert wire + {} == wire;
  }

  lemma {:induction false} RotateReadKeeps(d: Disk, line: nat, tip: nat, wire: set<Event>, p: Proc, input: Input)
    requires RecordInv(d, line) && ProcInv(d, line, tip, wire, p) && Moves(d, line) <= tip && Honest(tip, input)
    requires p.RotateRead? || p.RotateWait?
    ensures Kept(d, line, tip, wire, p, Advance(d, p, input))
  {
    hide Moves, Decided, Kept, RecordInv;
    if p.RotateRead? && input.Page? {
      DecidedKeeps(d, line, tip, wire, p.cur, p.attempt, input.history);
    }
    UnstoredKeeps(d, line, tip, wire, p, Advance(d, p, input).1);
  }

  lemma {:induction false} RotateKeeps(d: Disk, line: nat, tip: nat, wire: set<Event>, p: Proc, input: Input)
    requires RecordInv(d, line) && ProcInv(d, line, tip, wire, p) && Moves(d, line) <= tip
    requires p.RotateMint? || p.RotateMark?
    ensures Kept(d, line, tip, wire, p, Advance(d, p, input))
  {
    hide MovesOn;
    assert wire + {} == wire;
  }

  lemma {:induction false} RotateSendKeeps(d: Disk, line: nat, tip: nat, wire: set<Event>, p: Proc)
    requires RecordInv(d, line) && ProcInv(d, line, tip, wire, p) && Moves(d, line) <= tip && p.RotateSend?
    ensures Kept(d, line, tip, wire, p, Advance(d, p, Go))
  {
  }

  lemma {:induction false} CommitKeeps(d: Disk, line: nat, tip: nat, wire: set<Event>, p: Proc, input: Input)
    requires RecordInv(d, line) && ProcInv(d, line, tip, wire, p) && Moves(d, line) <= tip
    requires p.CommitWait? || p.CommitReread?
    ensures Kept(d, line, tip, wire, p, Advance(d, p, input))
  {
    hide Moves, Kept, RecordInv;
    UnstoredKeeps(d, line, tip, wire, p, Advance(d, p, input).1);
  }

  lemma {:induction false} CommitMintKeeps(d: Disk, line: nat, tip: nat, wire: set<Event>, p: Proc, input: Input)
    requires RecordInv(d, line) && ProcInv(d, line, tip, wire, p) && Moves(d, line) <= tip && p.CommitMint?
    ensures Kept(d, line, tip, wire, p, Advance(d, p, input))
  {
    hide MovesOn;
    assert wire + {} == wire;
  }

  lemma {:induction false} CommitSendKeeps(d: Disk, line: nat, tip: nat, wire: set<Event>, p: Proc)
    requires RecordInv(d, line) && ProcInv(d, line, tip, wire, p) && Moves(d, line) <= tip && p.CommitSend?
    ensures Kept(d, line, tip, wire, p, Advance(d, p, Go))
  {
    hide Moves, MovesOn, OnDisk;
    assert wire + {} == wire;
  }

  lemma {:induction false} HealKeeps(d: Disk, line: nat, tip: nat, wire: set<Event>, p: Proc, input: Input)
    requires RecordInv(d, line) && ProcInv(d, line, tip, wire, p) && Moves(d, line) <= tip && Honest(tip, input)
    requires p.HealRead?
    ensures Kept(d, line, tip, wire, p, Advance(d, p, input))
  {
    hide Moves, Kept, RecordInv;
    UnstoredKeeps(d, line, tip, wire, p, Advance(d, p, input).1);
  }

  lemma {:induction false} RanksGrow(d: Disk, line: nat, chain: seq<Event>, i: nat, j: nat)
    requires ChainInv(d, line, chain) && i <= j < |chain|
    ensures Rank(chain[i].key) <= Rank(chain[j].key)
    decreases j
  {
    if i < j {
      assert Follows(chain[j - 1], chain[j]) && OwnEvent(d, line, chain[j - 1]);
      RanksGrow(d, line, chain, i, j - 1);
    }
  }

  lemma {:induction false} AdvanceKeeps(d: Disk, line: nat, tip: nat, wire: set<Event>, p: Proc, input: Input)
    requires RecordInv(d, line) && ProcInv(d, line, tip, wire, p) && Moves(d, line) <= tip && Honest(tip, input)
    ensures Kept(d, line, tip, wire, p, Advance(d, p, input))
  {
    if p.RotateRecord? {
      if input.Go? { RecordKeeps(d, line, tip, wire, p); }
    } else if p.CommitSend? {
      if input.Go? { CommitSendKeeps(d, line, tip, wire, p); }
    } else if p.CommitMint? {
      CommitMintKeeps(d, line, tip, wire, p, input);
    } else if p.CommitWait? || p.CommitReread? {
      CommitKeeps(d, line, tip, wire, p, input);
    } else if p.RotateSend? {
      if input.Go? { RotateSendKeeps(d, line, tip, wire, p); }
    } else if p.HealRead? {
      HealKeeps(d, line, tip, wire, p, input);
    } else if p.RotateMint? || p.RotateMark? {
      RotateKeeps(d, line, tip, wire, p, input);
    } else if !p.Ended? {
      RotateReadKeeps(d, line, tip, wire, p, input);
    }
  }

  lemma OneMoreMove(moved: map<Key, Key>, cur: Key, to: Key, line: nat)
    requires Seed(cur) == line && cur !in moved
    ensures |MovesOn(moved[cur := to], line)| == |MovesOn(moved, line)| + 1
  {
    assert MovesOn(moved[cur := to], line) == MovesOn(moved, line) + {cur};
  }

  lemma {:induction false} RecordAdvances(d: Disk, line: nat, cur: Key)
    requires RecordInv(d, line) && Seed(cur) == line && Rank(cur) <= Moves(d, line) && cur !in d.moved
    ensures RecordInv(d.(kept := d.kept + {NextOf(cur)}, moved := d.moved[cur := NextOf(cur)]), line)
    ensures Rank(cur) == Moves(d, line)
    ensures Moves(d.(kept := d.kept + {NextOf(cur)}, moved := d.moved[cur := NextOf(cur)]), line) == Moves(d, line) + 1
  {
    var moved := d.moved[cur := NextOf(cur)];
    OneMoreMove(d.moved, cur, NextOf(cur), line);
    forall k: Key | Seed(k) == line && Rank(k) < Moves(d, line) + 1 ensures k in moved {
      if Rank(k) == Rank(cur) {
        SameRankSameKey(k, cur);
      }
    }
  }

  lemma {:induction false} PutKeeps(s: Sys, line: nat, pid: nat, input: Input)
    requires InvOn(s, line) && pid in s.procs
    requires Honest(Rank(Tip(s.chain)), input)
    ensures InvOn(Put(s, pid, input), line)
  {
    var tip := Rank(Tip(s.chain));
    AdvanceKeeps(s.disk, line, tip, s.wire, s.procs[pid], input);
    var s' := Put(s, pid, input);
    GrowthKeeps(s, line, s'.disk);
    forall other <- s'.procs ensures ProcInv(s'.disk, line, tip, s'.wire, s'.procs[other]) {
      if other != pid {
        assert ProcInv(s'.disk, line, tip, s.wire, s.procs[other]);
      }
    }
  }

  lemma {:induction false} HearKeeps(s: Sys, line: nat, pid: nat)
    requires InvOn(s, line) && pid in s.procs && Waiting(s.procs[pid])
    ensures InvOn(Next(s, Hear(pid)), line)
  {
    hide Moves, MovesOn, OnDisk, MoveInLog;
    assert ProcInv(s.disk, line, Rank(Tip(s.chain)), s.wire, s.procs[pid]);
    var m := s.procs[pid].sent;
    ServedKeeps(s, line, m);
    var served := s.(chain := Served(s.chain, m));
    PutKeeps(served, line, pid, Heard(Answer(s.chain, m)));
    assert Next(s, Hear(pid)) == Put(served, pid, Heard(Answer(s.chain, m)));
  }

  lemma {:induction false} StartKeeps(s: Sys, line: nat, pid: nat, p: Proc)
    requires InvOn(s, line) && ProcInv(s.disk, line, Rank(Tip(s.chain)), s.wire, p)
    ensures InvOn(Start(s, pid, p), line)
  {
  }

  lemma {:induction false} StartsKeep(s: Sys, line: nat, a: Action)
    requires InvOn(s, line) && (a.StartRotate? || a.StartCommit? || a.StartHeal?)
    ensures InvOn(Next(s, a), line)
  {
    LoadReads(s, line);
    var cur := Load(s.disk, s.address).value;
    match a
    case StartRotate(pid) => StartKeeps(s, line, pid, RotateRead(cur, 0));
    case StartCommit(pid, seen) =>
      if seen <= |s.chain| { StartKeeps(s, line, pid, CommitMint(cur, HeadOf(s.chain[..seen]), None)); }
    case StartHeal(pid) => StartKeeps(s, line, pid, HealRead(cur));
  }

  lemma {:induction false} ReadKeeps(s: Sys, line: nat, pid: nat, first: nat, last: nat)
    requires InvOn(s, line) && pid in s.procs && first <= last <= |s.chain|
    ensures InvOn(Put(s, pid, Page(History(s.chain[..last], HeadOf(s.chain[..first])))), line)
  {
    if last > 0 {
      RanksGrow(s.disk, line, s.chain, last - 1, |s.chain| - 1);
    }
    PutKeeps(s, line, pid, Page(History(s.chain[..last], HeadOf(s.chain[..first]))));
  }

  lemma {:induction false} ElsewhereKeeps(s: Sys, line: nat, d: Disk)
    requires InvOn(s, line) && LeavesAlone(s.disk, d, line)
    ensures InvOn(s.(disk := d), line)
  {
    assert MovesOn(d.moved, line) == MovesOn(s.disk.moved, line);
    hide Moves;
    GrowthKeeps(s, line, d);
  }

  lemma {:induction false} NextKeeps(s: Sys, line: nat, a: Action)
    requires InvOn(s, line)
    ensures InvOn(Next(s, a), line)
  {
    hide Moves, MovesOn, OnDisk;
    match a
    case StartRotate(_) => StartsKeep(s, line, a);
    case StartCommit(_, _) => StartsKeep(s, line, a);
    case StartHeal(_) => StartsKeep(s, line, a);
    case Read(pid, first, last) =>
      if pid in s.procs && first <= last <= |s.chain| { ReadKeeps(s, line, pid, first, last); }
    case Take(pid) => if pid in s.procs { PutKeeps(s, line, pid, Go); }
    case Hear(pid) => if pid in s.procs && Waiting(s.procs[pid]) { HearKeeps(s, line, pid); }
    case Spurn(pid, code) =>
      if pid in s.procs && Waiting(s.procs[pid]) { PutKeeps(s, line, pid, Heard(Refused(code))); }
    case Deliver(m) => if m in s.wire { ServedKeeps(s, line, m); }
    case Crash(_) =>
    case Elsewhere(d) => if LeavesAlone(s.disk, d, line) { ElsewhereKeeps(s, line, d); }
  }

  lemma {:induction false} BirthHolds(s: Sys, line: nat)
    requires Born(s, line)
    ensures InvOn(s, line)
  {
    assert Moves(s.disk, line) == 0;
    assert forall k <- s.disk.moved :: Seed(k) == line ==> k in MovesOn(s.disk.moved, line);
  }

  lemma {:induction false} RunKeeps(s: Sys, line: nat, actions: seq<Action>)
    requires Born(s, line) || InvOn(s, line)
    ensures InvOn(Run(s, actions), line)
    decreases |actions|
  {
    if actions == [] {
      if Born(s, line) {
        BirthHolds(s, line);
      }
    } else {
      RunKeeps(s, line, actions[..|actions| - 1]);
      NextKeeps(Run(s, actions[..|actions| - 1]), line, actions[|actions| - 1]);
    }
  }

  // ----- what that means, for every run -----------------------------------------------------

  lemma {:induction false} KeyAtOnDisk(s: Sys, line: nat, i: nat)
    requires InvOn(s, line) && i < |s.chain|
    ensures OnDisk(s.disk, s.chain[i].key)
  {
    if i == 0 {
      assert Minted(line) in s.disk.handles.Values;
    } else {
      assert Follows(s.chain[i - 1], s.chain[i]) && OwnEvent(s.disk, line, s.chain[i - 1]);
      KeyAtOnDisk(s, line, i - 1);
    }
  }

  predicate RecordedOrNext(s: Sys) {
    && s.chain != []
    && var cur := Load(s.disk, s.address);
    && cur.Some?
    && (Tip(s.chain) == cur.value || Tip(s.chain) == NextOf(cur.value))
    && OnDisk(s.disk, Tip(s.chain))
  }

  lemma {:induction false} InvGivesRecordedOrNext(s: Sys, line: nat)
    requires InvOn(s, line)
    ensures RecordedOrNext(s)
  {
    LoadReads(s, line);
    KeyAtOnDisk(s, line, |s.chain| - 1);
    assert OwnEvent(s.disk, line, s.chain[|s.chain| - 1]);
    var cur, tip := Load(s.disk, s.address).value, Tip(s.chain);
    if Rank(tip) == Rank(cur) {
      SameRankSameKey(tip, cur);
    } else {
      SameRankSameKey(tip, NextOf(cur));
    }
  }

  /** The chain's key is the recorded key or that key's stored next key: never behind the record,
      never more than one move ahead of it. */
  lemma {:induction false} HeadIsRecordedOrNext(s: Sys, line: nat, actions: seq<Action>)
    requires Born(s, line)
    ensures RecordedOrNext(Run(s, actions))
  {
    RunKeeps(s, line, actions);
    InvGivesRecordedOrNext(Run(s, actions), line);
  }

  /** Whatever this host put on the chain it can rotate away from: the commitment is a key on its disk. */
  lemma {:induction false} EveryCommitmentIsHeld(s: Sys, line: nat, actions: seq<Action>, i: nat)
    requires Born(s, line) && i < |Run(s, actions).chain|
    ensures var end := Run(s, actions);
            end.chain[i].next.Some? ==>
              end.chain[i].next.value == NextOf(end.chain[i].key) && OnDisk(end.disk, end.chain[i].next.value)
  {
    RunKeeps(s, line, actions);
    assert OwnEvent(Run(s, actions).disk, line, Run(s, actions).chain[i]);
  }

  /** Every statement ever sent has its key and the key it commits to on this host's disk. */
  lemma {:induction false} DurableBeforeWire(s: Sys, line: nat, actions: seq<Action>, m: Event)
    requires Born(s, line) && m in Run(s, actions).wire
    ensures var disk := Run(s, actions).disk;
            OnDisk(disk, m.key) && m.next == Some(NextOf(m.key)) && OnDisk(disk, NextOf(m.key))
  {
    RunKeeps(s, line, actions);
    assert MessageInv(Run(s, actions).disk, line, m);
  }

  /** The walk along recorded moves is bounded, so an identity can leave its birth key at most
      MAX_MOVES + 1 times: from there every rotate only repeats the last one. */
  lemma {:induction false} RotationsAreBounded(s: Sys, line: nat, actions: seq<Action>)
    requires Born(s, line)
    ensures var end := Run(s, actions);
            end.chain != [] && Rank(Tip(end.chain)) <= MAX_MOVES + 1
  {
    RunKeeps(s, line, actions);
  }

  // ----- a rotation whose answer was lost ----------------------------------------------------

  lemma {:induction false} SequenceAt(d: Disk, line: nat, chain: seq<Event>, i: nat)
    requires ChainInv(d, line, chain) && i < |chain|
    ensures chain[i].sequence == i
  {
    if i > 0 {
      assert Follows(chain[i - 1], chain[i]);
      SequenceAt(d, line, chain, i - 1);
    }
  }

  lemma {:induction false} EventAtFinds(events: seq<Event>, from: nat, i: nat)
    requires from <= i < |events| && forall j | 0 <= j < |events| :: events[j].sequence == j
    ensures EventAt(events[from..], i) == Some(events[i])
    decreases i - from
  {
    if from < i {
      assert events[from..][1..] == events[from + 1..];
      EventAtFinds(events, from + 1, i);
    }
  }

  /** The head is a rotation this host sent and never saw answered. */
  predicate Unanswered(s: Sys) {
    s.chain != [] && Load(s.disk, s.address).Some? && Tip(s.chain) == NextOf(Load(s.disk, s.address).value)
  }

  /** Such a head's last event is the rotation from the recorded key, built on the event before it. */
  lemma {:induction false} UnansweredIsOurRotation(s: Sys, line: nat)
    requires InvOn(s, line) && Unanswered(s)
    ensures var cur, n := Load(s.disk, s.address).value, |s.chain|;
            && n >= 2 && s.chain[n - 2].key == cur && s.chain[n - 2].next == Some(NextOf(cur)) && cur in s.disk.nexts
            && s.chain[n - 1] == Event(n - 1, After(s.chain[n - 2]), Rot, NextOf(cur), Some(NextOf(NextOf(cur))))
            && s.chain[n - 2].sequence == n - 2
  {
    var n := |s.chain|;
    SequenceAt(s.disk, line, s.chain, n - 1);
    assert n >= 2;
    SequenceAt(s.disk, line, s.chain, n - 2);
    assert Follows(s.chain[n - 2], s.chain[n - 1]);
    assert OwnEvent(s.disk, line, s.chain[n - 1]) && OwnEvent(s.disk, line, s.chain[n - 2]);
    assert n > 2 ==> Follows(s.chain[n - 3], s.chain[n - 2]);
  }

  /** Run again, rotate rewinds to the event before the head, and what it signs there is the head itself. */
  lemma {:induction false} RewindRebuildsHead(s: Sys, line: nat)
    requires InvOn(s, line) && Unanswered(s)
    ensures var cur := Load(s.disk, s.address).value;
            var decision := Decide(s.disk, cur, History(s.chain, HeadOf(s.chain)));
            && decision.Reveal? && decision.landed && decision.head.Signable()
            && Rotation(decision.head, cur) == s.chain[|s.chain| - 1]
  {
    hide Load, Moves;
    UnansweredIsOurRotation(s, line);
    var n := |s.chain|;
    forall i | 0 <= i < n ensures s.chain[i].sequence == i {
      SequenceAt(s.disk, line, s.chain, i);
    }
    EventAtFinds(s.chain, 0, n - 2);
    assert s.chain[0..] == s.chain;
  }

  /** The head sent again is answered as the head, and the chain gains nothing. */
  lemma {:induction false} HeadIsAnsweredUnchanged(s: Sys, line: nat)
    requires InvOn(s, line) && Unanswered(s)
    ensures var m := s.chain[|s.chain| - 1];
            && Served(s.chain, m) == s.chain && Answer(s.chain, m) == Answered(HeadOf(s.chain))
            && HeadOf(s.chain).mode == Committed
            && HeadOf(s.chain).key == Some(NextOf(Load(s.disk, s.address).value))
  {
    hide Load, Moves;
    UnansweredIsOurRotation(s, line);
  }

  /** The move is recorded, and a load then reads the head's key exactly when the walk along recorded moves
      still had room for one more. */
  lemma {:induction false} RecordedMoveIsRead(s: Sys, line: nat)
    requires InvOn(s, line) && Unanswered(s)
    ensures var cur := Load(s.disk, s.address).value;
            var recorded := RecordMove(s.disk, cur, NextOf(cur));
            && recorded.Ok?
            && (Load(recorded.value, s.address) == Some(Tip(s.chain)) <==> Moves(s.disk, line) < MAX_MOVES)
  {
    LoadReads(s, line);
    var cur := Load(s.disk, s.address).value;
    var recorded := RecordMove(s.disk, cur, NextOf(cur)).value;
    if cur !in s.disk.moved {
      RecordAdvances(s.disk, line, cur);
    } else {
      assert MovesOn(recorded.moved, line) == MovesOn(s.disk.moved, line);
    }
    hide Moves, ChainInv;
    FollowReaches(recorded, line, Minted(line), MAX_MOVES);
    var read := Follow(recorded, Minted(line), MAX_MOVES);
    if Rank(read) == Rank(NextOf(cur)) {
      SameRankSameKey(read, NextOf(cur));
    }
  }

  /** Run again, rotate rewinds to the event before the head and rebuilds exactly the head: the answer
      is unchanged, the chain gains nothing, and the move is recorded; a load then reads the head's key
      exactly when the walk along recorded moves still had room for one more. */
  lemma {:induction false} LostAnswerIsResentUnchanged(s: Sys, line: nat)
    requires InvOn(s, line) && Unanswered(s)
    ensures var cur := Load(s.disk, s.address).value;
            var decision := Decide(s.disk, cur, History(s.chain, HeadOf(s.chain)));
            && decision.Reveal? && decision.landed && decision.head.Signable()
            && var m := Rotation(decision.head, cur);
            && m == s.chain[|s.chain| - 1] && Served(s.chain, m) == s.chain
            && Answer(s.chain, m) == Answered(HeadOf(s.chain))
            && HeadOf(s.chain).mode == Committed && HeadOf(s.chain).key == Some(NextOf(cur))
            && var recorded := RecordMove(s.disk, cur, NextOf(cur));
            && recorded.Ok?
            && (Load(recorded.value, s.address) == Some(Tip(s.chain)) <==> Moves(s.disk, line) < MAX_MOVES)
  {
    RewindRebuildsHead(s, line);
    HeadIsAnsweredUnchanged(s, line);
    RecordedMoveIsRead(s, line);
    hide InvOn, Decide, Load, RecordMove, Served, Answer, HeadOf, Rotation, Moves;
  }
}
