/**
 Every durable step and every disclosure any key command makes, as one system: rotate, commit,
 recover, adopt and birth take these steps and no others, in any interleaving. A key's public half or
 a commitment to its next key is disclosed only while the private halves are on disk, unless the key
 is one of the lost: a birth key removed after a refusal, a first key whose file another first connect
 replaced, or one whose best-effort save failed.
 */
module Vault {
  import opened Wrappers
  import opened KeyMoves

  datatype State = State(disk: Disk, sent: set<Key>, committed: set<Key>, lost: set<Key>)

  datatype Act =
    | Keep(key: Key)
    | MintNext(key: Key)
    | LinkTo(handle: Handle, key: Key)
    | Save(handle: Handle, key: Key)
    | SaveFailed(key: Key)
    | Unlink(handle: Handle, key: Key)
    | Point(pointer: Pointer, key: Key)
    | Unpoint(pointer: Pointer)
    | Move(from: Key, to: Key)
    | Mark(key: Key)
    | Announce(key: Key, commits: bool)

  /** The key can be proved by this host, or is one of the lost. */
  predicate Secured(s: State, k: Key) {
    OnDisk(s.disk, k) || k in s.lost
  }

  /** One step of any command. */
  function Next(s: State, a: Act): State {
    var d := s.disk;
    match a
    case Keep(k) => s.(disk := d.(kept := d.kept + {k}))
    case MintNext(k) => s.(disk := EnsureNext(d, k))
    case LinkTo(h, k) => if h in d.handles then s else s.(disk := d.(handles := d.handles[h := k]))
    case Save(h, k) =>
      s.(disk := d.(handles := d.handles[h := k]), lost := s.lost + (if h in d.handles then {d.handles[h]} else {}))
    case SaveFailed(k) => s.(lost := s.lost + {k})
    case Unlink(h, k) =>
      if h in d.handles && d.handles[h] == k
      then s.(disk := d.(handles := d.handles - {h}), lost := s.lost + {k}) else s
    case Point(p, k) => s.(disk := d.(pending := d.pending[p := k]))
    case Unpoint(p) => s.(disk := d.(pending := d.pending - {p}))
    case Move(from, to) => (match RecordMove(d, from, to) case Ok(d') => s.(disk := d') case Err(_) => s)
    case Mark(k) => s.(disk := MarkRotating(d, k))
    case Announce(k, commits) => s.(sent := s.sent + {k}, committed := s.committed + (if commits then {k} else {}))
  }

  function Run(s: State, acts: seq<Act>): State
    decreases |acts|
  {
    if acts == [] then s else Next(Run(s, acts[..|acts| - 1]), acts[|acts| - 1])
  }

  /** A disciplined step: a key is disclosed or committed to only once it is stored, and a pointer
      written only to a stored key. */
  predicate Allowed(s: State, a: Act) {
    match a
    case Announce(k, commits) => Secured(s, k) && (commits ==> k in s.disk.nexts)
    case Point(_, k) => k in s.disk.kept
    case _ => true
  }

  predicate Disciplined(s: State, acts: seq<Act>) {
    forall i | 0 <= i < |acts| :: Allowed(Run(s, acts[..i]), acts[i])
  }

  ghost predicate Leads(s: State, t: State) {
    exists acts :: Run(s, acts) == t && Disciplined(s, acts)
  }

  lemma {:induction false} RunJoin(s: State, t: seq<Act>, u: seq<Act>)
    ensures Run(s, t + u) == Run(Run(s, t), u)
    decreases |u|
  {
    if u == [] {
      assert t + u == t;
    } else {
      RunJoin(s, t, u[..|u| - 1]);
      assert (t + u)[..|t + u| - 1] == t + u[..|u| - 1];
    }
  }

  lemma LeadsToItself(s: State)
    ensures Leads(s, s)
  {
    assert Run(s, []) == s;
  }

  lemma LeadsOne(s: State, a: Act)
    requires Allowed(s, a)
    ensures Leads(s, Next(s, a))
  {
    assert [a][..0] == [];
    assert Run(s, [a]) == Next(Run(s, []), a);
    assert Disciplined(s, [a]);
  }

  lemma AllowedLater(s: State, first: seq<Act>, rest: seq<Act>, i: nat)
    requires Disciplined(Run(s, first), rest) && |first| <= i < |first + rest|
    ensures Allowed(Run(s, (first + rest)[..i]), (first + rest)[i])
  {
    hide Allowed, Run;
    var k := i - |first|;
    assert (first + rest)[..i] == first + rest[..k] && (first + rest)[i] == rest[k];
    RunJoin(s, first, rest[..k]);
  }

  lemma AllowedEarlier(s: State, first: seq<Act>, rest: seq<Act>, i: nat)
    requires Disciplined(s, first) && i < |first|
    ensures Allowed(Run(s, (first + rest)[..i]), (first + rest)[i])
  {
    hide Allowed, Run;
    assert (first + rest)[..i] == first[..i] && (first + rest)[i] == first[i];
  }

  lemma DisciplineJoins(s: State, first: seq<Act>, rest: seq<Act>)
    requires Disciplined(s, first) && Disciplined(Run(s, first), rest)
    ensures Disciplined(s, first + rest)
  {
    forall i | 0 <= i < |first + rest| ensures Allowed(Run(s, (first + rest)[..i]), (first + rest)[i]) {
      hide Allowed, Run, Disciplined;
      if i < |first| {
        AllowedEarlier(s, first, rest, i);
      } else {
        AllowedLater(s, first, rest, i);
      }
    }
    hide Allowed, Run;
  }

  lemma LeadsThrough(s: State, t: State, u: State)
    requires Leads(s, t) && Leads(t, u)
    ensures Leads(s, u)
  {
    hide Disciplined, Run;
    var first :| Run(s, first) == t && Disciplined(s, first);
    var rest :| Run(t, rest) == u && Disciplined(t, rest);
    RunJoin(s, first, rest);
    DisciplineJoins(s, first, rest);
  }

  // ----- what every step keeps ----------------------------------------------------------------

  /** Nothing durable goes, except a handle's file, whose key is then among the lost. */
  ghost predicate Preserves(s: State, t: State) {
    && s.disk.kept <= t.disk.kept && s.disk.nexts <= t.disk.nexts && s.disk.moved.Keys <= t.disk.moved.Keys
    && (forall k <- s.disk.moved :: t.disk.moved[k] == s.disk.moved[k])
    && s.sent <= t.sent && s.committed <= t.committed && s.lost <= t.lost
    && (forall k: Key :: Secured(s, k) ==> Secured(t, k))
  }

  lemma {:induction false} NextPreserves(s: State, a: Act)
    ensures Preserves(s, Next(s, a))
  {
    var t := Next(s, a);
    forall k: Key | Secured(s, k) ensures Secured(t, k) {
      if k in s.disk.handles.Values {
        var h :| h in s.disk.handles && s.disk.handles[h] == k;
        assert k in t.lost || (h in t.disk.handles && t.disk.handles[h] == k);
      }
    }
  }

  lemma {:induction false} RunPreserves(s: State, acts: seq<Act>)
    ensures Preserves(s, Run(s, acts))
    decreases |acts|
  {
    if acts != [] {
      RunPreserves(s, acts[..|acts| - 1]);
      NextPreserves(Run(s, acts[..|acts| - 1]), acts[|acts| - 1]);
    }
  }

  lemma LeadsPreserves(s: State, t: State)
    requires Leads(s, t)
    ensures Preserves(s, t)
  {
    var acts :| Run(s, acts) == t;
    RunPreserves(s, acts);
  }

  /** What a command may rely on about a key while others run. */
  lemma StillStored(s: State, t: State, k: Key)
    requires Leads(s, t)
    ensures k in s.disk.kept ==> k in t.disk.kept
    ensures k in s.disk.nexts ==> k in t.disk.nexts
    ensures k in s.sent ==> k in t.sent
    ensures k in s.disk.moved ==> k in t.disk.moved && t.disk.moved[k] == s.disk.moved[k]
    ensures Secured(s, k) ==> Secured(t, k)
  {
    LeadsPreserves(s, t);
  }

  /** Every key disclosed is one this host holds or lost, and can be rotated away from if committed. */
  predicate Safe(s: State) {
    && (forall k <- s.sent :: Secured(s, k))
    && (forall k <- s.committed :: k in s.disk.nexts)
    && (forall p <- s.disk.pending :: s.disk.pending[p] in s.disk.kept)
  }

  lemma {:induction false} NextSafe(s: State, a: Act)
    requires Safe(s) && Allowed(s, a)
    ensures Safe(Next(s, a))
  {
    NextPreserves(s, a);
    var t := Next(s, a);
    assert forall k <- t.sent :: k in s.sent || (a.Announce? && k == a.key);
    assert forall k <- t.committed :: k in s.committed || (a.Announce? && a.commits && k == a.key);
  }

  lemma {:induction false} RunSafe(s: State, acts: seq<Act>)
    requires Safe(s) && Disciplined(s, acts)
    ensures Safe(Run(s, acts))
    decreases |acts|
  {
    if acts != [] {
      assert forall i | 0 <= i < |acts| - 1 :: acts[..|acts| - 1][..i] == acts[..i];
      RunSafe(s, acts[..|acts| - 1]);
      assert acts[..|acts| - 1] == acts[..|acts| - 1][..|acts| - 1];
      NextSafe(Run(s, acts[..|acts| - 1]), acts[|acts| - 1]);
    }
  }

  lemma LeadsSafe(s: State, t: State)
    requires Leads(s, t) && Safe(s)
    ensures Safe(t)
  {
    var acts :| Run(s, acts) == t && Disciplined(s, acts);
    RunSafe(s, acts);
  }

  /** A step that costs this host a key: its best-effort save failed, or its handle's file was removed or
      written over. */
  predicate LosesKey(s: State, a: Act, k: Key) {
    match a
    case SaveFailed(failed) => failed == k
    case Unlink(h, held) => held == k && h in s.disk.handles && s.disk.handles[h] == k
    case Save(h, _) => h in s.disk.handles && s.disk.handles[h] == k
    case _ => false
  }

  predicate LostOnTheWay(s: State, acts: seq<Act>, k: Key) {
    exists i | 0 <= i < |acts| :: LosesKey(Run(s, acts[..i]), acts[i], k)
  }

  lemma {:induction false} NextLoses(s: State, a: Act, k: Key)
    ensures k in Next(s, a).lost <==> k in s.lost || LosesKey(s, a, k)
  {
  }

  lemma LostEarlier(s: State, acts: seq<Act>, a: Act, k: Key)
    requires LostOnTheWay(s, acts, k)
    ensures LostOnTheWay(s, acts + [a], k)
  {
    hide Run, LosesKey;
    var i :| 0 <= i < |acts| && LosesKey(Run(s, acts[..i]), acts[i], k);
    var all := acts + [a];
    assert all[..i] == acts[..i] && all[i] == acts[i];
  }

  lemma LostLater(s: State, acts: seq<Act>, a: Act, k: Key)
    requires LostOnTheWay(s, acts + [a], k) && !LosesKey(Run(s, acts), a, k)
    ensures LostOnTheWay(s, acts, k)
  {
    hide Run, LosesKey;
    var all := acts + [a];
    var i :| 0 <= i < |all| && LosesKey(Run(s, all[..i]), all[i], k);
    assert all[..|acts|] == acts && i < |acts|;
    assert all[..i] == acts[..i] && all[i] == acts[i];
  }

  lemma LostOneMore(s: State, acts: seq<Act>, a: Act, k: Key)
    ensures LostOnTheWay(s, acts + [a], k) <==> LostOnTheWay(s, acts, k) || LosesKey(Run(s, acts), a, k)
  {
    if LosesKey(Run(s, acts), a, k) {
      assert (acts + [a])[..|acts|] == acts;
    } else {
      hide LostOnTheWay, LosesKey;
      if LostOnTheWay(s, acts, k) {
        LostEarlier(s, acts, a, k);
      }
      if LostOnTheWay(s, acts + [a], k) {
        LostLater(s, acts, a, k);
      }
    }
  }

  /** A key is among the lost exactly when it was before, or some step of the run cost this host that key. */
  lemma {:induction false} LostExactly(s: State, acts: seq<Act>, k: Key)
    ensures k in Run(s, acts).lost <==> k in s.lost || LostOnTheWay(s, acts, k)
    decreases |acts|
  {
    if acts != [] {
      hide Next, LosesKey, LostOnTheWay;
      var before, a := acts[..|acts| - 1], acts[|acts| - 1];
      LostExactly(s, before, k);
      NextLoses(Run(s, before), a, k);
      LostOneMore(s, before, a, k);
      assert before + [a] == acts;
    }
  }

  /** Nothing sent yet: a key on the wire later is on disk, unless some step cost this host that very key;
      and every commitment on the wire is to a key on disk for good. */
  lemma {:induction false} DurableBeforeWire(s: State, acts: seq<Act>, k: Key)
    requires s.sent == {} && s.committed == {} && s.lost == {} && s.disk.pending == map[] && Disciplined(s, acts)
    ensures var end := Run(s, acts);
            && (k in end.sent ==> OnDisk(end.disk, k) || LostOnTheWay(s, acts, k))
            && (k in end.committed ==> OnDisk(end.disk, NextOf(k)))
  {
    RunSafe(s, acts);
    LostExactly(s, acts, k);
  }

  /** The promise fails only where a handle's file does: a first key whose save failed is sent unheld. */
  lemma SentUnheld()
    ensures var s := State(Disk(map[], {}, {}, map[], {}, map[]), {}, {}, {});
            var k := Minted(0);
            var end := Run(s, [SaveFailed(k), Announce(k, false)]);
            Disciplined(s, [SaveFailed(k), Announce(k, false)]) && k in end.sent && !OnDisk(end.disk, k)
  {
    var s := State(Disk(map[], {}, {}, map[], {}, map[]), {}, {}, {});
    var k := Minted(0);
    var acts := [SaveFailed(k), Announce(k, false)];
    assert acts[..1] == [SaveFailed(k)] && acts[..1][..0] == [];
    assert Run(s, acts[..1]) == Next(Run(s, []), SaveFailed(k));
    assert Run(s, acts) == Next(Run(s, acts[..1]), Announce(k, false));
    assert forall i | 0 <= i < 2 :: Allowed(Run(s, acts[..i]), acts[i]);
  }

  // ----- a first key, whatever runs beside its connect -------------------------------------------

  /** Stores the key, or tries to. */
  predicate Stores(a: Act, k: Key) {
    match a
    case Keep(x) => x == k
    case LinkTo(_, x) => x == k
    case Save(_, x) => x == k
    case SaveFailed(x) => x == k
    case Move(_, x) => x == k
    case _ => false
  }

  /** At most this handle's file holds the key, and it is lost exactly when that does not. */
  predicate OnlyUnder(s: State, h: Handle, k: Key) {
    && k !in s.disk.kept && (forall g <- s.disk.handles :: s.disk.handles[g] == k ==> g == h)
    && (k in s.lost <==> !(h in s.disk.handles && s.disk.handles[h] == k))
  }

  lemma OnlyUnderStays(s: State, h: Handle, k: Key, a: Act)
    requires OnlyUnder(s, h, k) && !Stores(a, k)
    ensures OnlyUnder(Next(s, a), h, k)
  {
  }

  lemma {:induction false} OnlyUnderRuns(s: State, h: Handle, k: Key, acts: seq<Act>)
    requires OnlyUnder(s, h, k) && forall a <- acts :: !Stores(a, k)
    ensures OnlyUnder(Run(s, acts), h, k)
    decreases |acts|
  {
    if acts != [] {
      hide OnlyUnder, Next;
      OnlyUnderRuns(s, h, k, acts[..|acts| - 1]);
      OnlyUnderStays(Run(s, acts[..|acts| - 1]), h, k, acts[|acts| - 1]);
    }
  }

  /** A first key, saved or not, is on disk after whatever else this host's commands do exactly when no step cost
      this host that key. */
  lemma FirstKeyHeldExactly(s: State, h: Handle, k: Key, saved: bool, rest: seq<Act>)
    requires k.Minted? && Unseen(s, k) && forall a <- rest :: !Stores(a, k)
    ensures var acts := [if saved then Save(h, k) else SaveFailed(k)] + rest;
            OnDisk(Run(s, acts).disk, k) <==> !LostOnTheWay(s, acts, k)
  {
    var first := [if saved then Save(h, k) else SaveFailed(k)];
    assert first[..0] == [] && Run(s, first) == Next(Run(s, []), first[0]);
    assert OnlyUnder(Run(s, first), h, k) by {
      forall g | g in s.disk.handles ensures s.disk.handles[g] != k {
        assert s.disk.handles[g] in s.disk.handles.Values;
      }
    }
    RunJoin(s, first, rest);
    OnlyUnderRuns(Run(s, first), h, k, rest);
    LostExactly(s, first + rest, k);
    HeldUnder(Run(s, first + rest), h, k);
  }

  lemma HeldUnder(s: State, h: Handle, k: Key)
    requires OnlyUnder(s, h, k) && k.Minted?
    ensures OnDisk(s.disk, k) <==> k !in s.lost
  {
    if h in s.disk.handles && s.disk.handles[h] == k {
      assert s.disk.handles[h] in s.disk.handles.Values;
    }
  }

  /** Two first connects of one name at once: the second writes over the file of the first, whose key is out. */
  lemma OverwrittenUnheld()
    ensures var s := State(Disk(map[], {}, {}, map[], {}, map[]), {}, {}, {});
            var acts := [Save("a", Minted(0)), Announce(Minted(0), false), Save("a", Minted(1))];
            && Disciplined(s, acts) && Minted(0) in Run(s, acts).sent && !OnDisk(Run(s, acts).disk, Minted(0))
  {
    var s := State(Disk(map[], {}, {}, map[], {}, map[]), {}, {}, {});
    var acts := [Save("a", Minted(0)), Announce(Minted(0), false), Save("a", Minted(1))];
    assert acts[..1] == [Save("a", Minted(0))] && acts[..2] == acts[..1] + [acts[1]] && acts == acts[..2] + [acts[2]];
    assert acts[..1][..0] == [] && acts[..2][..1] == acts[..1];
    var one := Next(s, acts[0]);
    assert Run(s, acts[..1]) == one by {
      assert Run(s, []) == s;
    }
    assert one.disk.handles["a"] in one.disk.handles.Values;
    var two := Next(one, acts[1]);
    assert Run(s, acts[..2]) == two;
    assert Run(s, acts) == Next(two, acts[2]);
    assert forall i | 0 <= i < 3 :: Allowed(Run(s, acts[..i]), acts[i]);
  }

  // ----- minting --------------------------------------------------------------------------------

  /** No store holds the key, and no one was ever shown it. */
  predicate Unseen(s: State, k: Key) {
    !OnDisk(s.disk, k) && k !in s.sent && k !in s.lost
  }

  lemma {:induction false} BoundOf(keys: set<Key>) returns (bound: nat)
    ensures forall k <- keys :: k.Minted? ==> k.id < bound
    decreases keys
  {
    bound := 0;
    if keys != {} {
      var k :| k in keys;
      bound := BoundOf(keys - {k});
      if k.Minted? && k.id >= bound {
        bound := k.id + 1;
      }
    }
  }

  /** There is always a key to mint. */
  lemma SomeUnseen(s: State)
    ensures exists id: nat :: Unseen(s, Minted(id))
  {
    var keys := s.disk.handles.Values + s.disk.kept + s.sent + s.lost;
    var id := BoundOf(keys);
    assert Minted(id) !in keys;
    assert Unseen(s, Minted(id));
  }

  // ----- rotate and commit take these steps -----------------------------------------------------

  /** What a rotate or commit process has secured at each of its points. */
  predicate Ready(s: State, p: Proc) {
    match p
    case RotateMint(cur, _, _, _) => Secured(s, cur) && cur in s.disk.nexts
    case RotateMark(cur, _, _, _) => Secured(s, cur) && cur in s.disk.nexts && NextOf(cur) in s.disk.nexts
    case RotateSend(cur, _, _, _) => Secured(s, cur) && cur in s.disk.nexts && NextOf(cur) in s.disk.nexts
    case CommitMint(cur, _, _) => Secured(s, cur)
    case CommitSend(cur, _, _, _) => Secured(s, cur) && cur in s.disk.nexts
    case CommitWait(cur, _, _, _) => Secured(s, cur) && cur in s.disk.nexts
    case CommitReread(cur, _) => Secured(s, cur) && cur in s.disk.nexts
    case RotateRead(cur, _) => Secured(s, cur)
    case RotateWait(cur, _, _, _) => Secured(s, cur)
    case _ => true
  }

  lemma {:induction false} FollowSecured(s: State, k: Key, fuel: nat)
    requires Secured(s, k)
    ensures Secured(s, Follow(s.disk, k, fuel))
    decreases fuel
  {
    if fuel > 0 && k in s.disk.moved && s.disk.moved[k] in s.disk.kept {
      FollowSecured(s, s.disk.moved[k], fuel - 1);
    }
  }

  /** A key loaded from a handle is on disk. */
  lemma LoadSecured(s: State, h: Handle)
    ensures Load(s.disk, h).Some? ==> Secured(s, Load(s.disk, h).value)
  {
    if h in s.disk.handles {
      assert s.disk.handles[h] in s.disk.handles.Values;
      FollowSecured(s, s.disk.handles[h], MAX_MOVES);
    }
  }

  lemma ReadyStays(s: State, t: State, p: Proc)
    requires Leads(s, t) && Ready(s, p)
    ensures Ready(t, p)
  {
    LeadsPreserves(s, t);
  }

  /** What a rotate or commit discloses when it sends: its key, and the commitment to the key's next. */
  function Disclosed(s: State, sends: Option<Event>): State {
    match sends
    case Some(m) => s.(sent := s.sent + {m.key}, committed := s.committed + {m.key})
    case None => s
  }

  ghost predicate StepIsDisciplined(s: State, p: Proc, input: Input) {
    var (disk, p') := Advance(s.disk, p, input);
    var t := Disclosed(s.(disk := disk), Sends(p, p'));
    Leads(s, t) && Ready(t, p')
  }

  lemma {:induction false} DurableStep(s: State, p: Proc)
    requires Ready(s, p) && (p.RotateMint? || p.RotateMark? || p.RotateRecord? || p.CommitMint?)
    ensures StepIsDisciplined(s, p, Go)
  {
    hide Leads;
    match p
    case RotateMint(cur, _, _, _) => LeadsOne(s, MintNext(NextOf(cur)));
    case RotateMark(cur, _, _, _) => LeadsOne(s, Mark(cur));
    case RotateRecord(cur) => LeadsOne(s, Move(cur, NextOf(cur))); LeadsToItself(s);
    case CommitMint(cur, _, _) => LeadsOne(s, MintNext(cur));
  }

  lemma {:induction false} SendStep(s: State, p: Proc)
    requires Ready(s, p) && (p.RotateSend? || p.CommitSend?)
    ensures StepIsDisciplined(s, p, Go)
  {
    hide Leads;
    LeadsToItself(s);
    if p.RotateSend? {
      LeadsOne(s, Announce(NextOf(p.cur), true));
    } else {
      LeadsOne(s, Announce(p.cur, true));
    }
  }

  /** Every step of a rotate, commit or heal, whatever it reads or hears and whatever runs beside it, is a
      disciplined one. */
  lemma {:induction false} MoveStepIsDisciplined(s: State, p: Proc, input: Input)
    requires Ready(s, p)
    ensures StepIsDisciplined(s, p, input)
  {
    hide Leads;
    LeadsToItself(s);
    if p.RotateMint? || p.RotateMark? || p.RotateRecord? || p.CommitMint? {
      if input.Go? { DurableStep(s, p); }
    } else if p.RotateSend? || p.CommitSend? {
      if input.Go? { SendStep(s, p); }
    } else if p.RotateRead? && input.Page? {
      assert Ready(s, Decided(s.disk, p.cur, p.attempt, input.history));
    }
  }
}
