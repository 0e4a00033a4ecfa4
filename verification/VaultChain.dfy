/**
 The service's chain beside the key store: births, commitments, rotations, recoveries and adopts of one
 identity, sent by any commands of this host in any order, delivered late, more than once or never. The chain
 may leave the line of its birth key and come back to no line at all, and is still one this host can carry on.
 */
module VaultChain {
  import opened Wrappers
  import opened KeyMoves
  import opened Vault

  datatype Sys = Sys(vault: State, chain: seq<Event>, wire: set<Event>)

  /** A step of some command, a key event put on the wire, or one that reaches the service. */
  datatype Step = Do(act: Act) | Send(event: Event) | Deliver(event: Event)

  /** Sending an event discloses its key, and the commitment it makes. */
  function Discloses(m: Event): Act {
    Announce(m.key, m.next.Some?)
  }

  /** What any command keeps to: disciplined steps, and events that commit to their own key's next key or to
      none. */
  predicate Permits(s: Sys, step: Step) {
    match step
    case Do(act) => Allowed(s.vault, act)
    case Send(m) => Allowed(s.vault, Discloses(m)) && m.next in {None, Some(NextOf(m.key))}
    case Deliver(_) => true
  }

  /** A chain begins with an inception, and then takes what extends its head. */
  function Taken(chain: seq<Event>, m: Event): seq<Event> {
    if chain == [] then (if m.kind == Icp && m.sequence == 0 && m.prior == Genesis then [m] else [])
    else Served(chain, m)
  }

  function Stepped(s: Sys, step: Step): Sys {
    match step
    case Do(act) => s.(vault := Next(s.vault, act))
    case Send(m) => s.(vault := Next(s.vault, Discloses(m)), wire := s.wire + {m})
    case Deliver(m) => if m in s.wire then s.(chain := Taken(s.chain, m)) else s
  }

  function Through(s: Sys, steps: seq<Step>): Sys
    decreases |steps|
  {
    if steps == [] then s else Stepped(Through(s, steps[..|steps| - 1]), steps[|steps| - 1])
  }

  predicate Permitted(s: Sys, steps: seq<Step>) {
    forall i | 0 <= i < |steps| :: Permits(Through(s, steps[..i]), steps[i])
  }

  /** What the steps do to the key store. */
  function ActsOf(steps: seq<Step>): seq<Act>
    decreases |steps|
  {
    if steps == [] then []
    else
      var step := steps[|steps| - 1];
      ActsOf(steps[..|steps| - 1])
      + match step case Do(act) => [act] case Send(m) => [Discloses(m)] case Deliver(_) => []
  }

  lemma OneMore(s: State, acts: seq<Act>, a: Act)
    requires Disciplined(s, acts) && Allowed(Run(s, acts), a)
    ensures Run(s, acts + [a]) == Next(Run(s, acts), a) && Disciplined(s, acts + [a])
  {
    hide Next, Allowed;
    var all := acts + [a];
    assert all[..|acts|] == acts;
    forall i | 0 <= i < |all| ensures Allowed(Run(s, all[..i]), all[i]) {
      if i < |acts| {
        assert all[..i] == acts[..i];
      }
    }
  }

  lemma PermittedBefore(s: Sys, steps: seq<Step>)
    requires steps != [] && Permitted(s, steps)
    ensures Permitted(s, steps[..|steps| - 1])
    ensures Permits(Through(s, steps[..|steps| - 1]), steps[|steps| - 1])
  {
    hide Permits, Through;
    var before := steps[..|steps| - 1];
    assert forall i | 0 <= i < |before| :: before[..i] == steps[..i];
  }

  /** The key store goes through a disciplined run of its own. */
  lemma {:induction false} VaultRuns(s: Sys, steps: seq<Step>)
    requires Permitted(s, steps)
    ensures Through(s, steps).vault == Run(s.vault, ActsOf(steps)) && Disciplined(s.vault, ActsOf(steps))
    decreases |steps|
  {
    if steps != [] {
      hide Run, Disciplined, Next, Allowed, Permitted;
      var before, step := steps[..|steps| - 1], steps[|steps| - 1];
      PermittedBefore(s, steps);
      VaultRuns(s, before);
      match step {
        case Do(act) => OneMore(s.vault, ActsOf(before), act);
        case Send(m) => OneMore(s.vault, ActsOf(before), Discloses(m));
        case Deliver(_) => assert ActsOf(steps) == ActsOf(before);
      }
    } else {
      assert Run(s.vault, []) == s.vault;
    }
  }

  /** An event whose key, and whose commitment if it makes one, was disclosed by this host. */
  predicate Disclosed(vault: State, m: Event) {
    m.key in vault.sent && (m.next.Some? ==> m.next == Some(NextOf(m.key)) && m.key in vault.committed)
  }

  ghost predicate OwnChain(s: Sys) {
    (forall m <- s.wire :: Disclosed(s.vault, m)) && (forall e <- s.chain :: e in s.wire)
  }

  lemma {:induction false} OwnChainStays(s: Sys, step: Step)
    requires OwnChain(s) && Permits(s, step)
    ensures OwnChain(Stepped(s, step))
  {
    var t := Stepped(s, step);
    if !step.Deliver? {
      NextPreserves(s.vault, if step.Do? then step.act else Discloses(step.event));
    }
    assert s.wire <= t.wire;
    forall m <- t.wire ensures Disclosed(t.vault, m) {
      assert m in s.wire ==> Disclosed(s.vault, m);
    }
  }

  lemma {:induction false} OwnChainRuns(s: Sys, steps: seq<Step>)
    requires OwnChain(s) && Permitted(s, steps)
    ensures OwnChain(Through(s, steps))
    decreases |steps|
  {
    if steps != [] {
      hide OwnChain, Permitted, Stepped, Permits;
      PermittedBefore(s, steps);
      OwnChainRuns(s, steps[..|steps| - 1]);
      OwnChainStays(Through(s, steps[..|steps| - 1]), steps[|steps| - 1]);
    }
  }

  /** Nothing sent yet, nothing pending, and no chain. */
  predicate Fresh(s: Sys) {
    && s.chain == [] && s.wire == {}
    && s.vault.sent == {} && s.vault.committed == {} && s.vault.lost == {} && s.vault.disk.pending == map[]
  }

  /** In every run of every command of this host, recoveries and adopts included, the key of every event on the
      chain is on disk unless some step cost this host that very key, and every commitment is to a key on disk
      for good. */
  lemma ChainIsBacked(s: Sys, steps: seq<Step>, e: Event)
    requires Fresh(s) && Permitted(s, steps) && e in Through(s, steps).chain
    ensures var disk := Through(s, steps).vault.disk;
            && (OnDisk(disk, e.key) || LostOnTheWay(s.vault, ActsOf(steps), e.key))
            && (e.next.Some? ==> e.next == Some(NextOf(e.key)) && OnDisk(disk, e.next.value))
  {
    hide Through, Permitted, Run, ActsOf, OnDisk, LostOnTheWay, Disciplined;
    VaultRuns(s, steps);
    OwnChainRuns(s, steps);
    assert Disclosed(Through(s, steps).vault, e);
    DurableBeforeWire(s.vault, ActsOf(steps), e.key);
  }

  /** So a committed head never strands the identity: the rotation over it is one the service takes, and the key
      it reveals is on this host's disk. */
  lemma CommittedHeadCanRotate(s: Sys, steps: seq<Step>)
    requires Fresh(s) && Permitted(s, steps) && Through(s, steps).chain != []
    requires HeadOf(Through(s, steps).chain).mode == Committed
    ensures var end := Through(s, steps);
            var head := HeadOf(end.chain);
            && head.Signable() && var m := Rotation(head, head.key.value);
            Accepts(end.chain, m) && OnDisk(end.vault.disk, m.key)
  {
    var chain := Through(s, steps).chain;
    var last := chain[|chain| - 1];
    assert last in chain;
    hide Through, Permitted, ActsOf, LostOnTheWay, OnDisk, Fresh;
    ChainIsBacked(s, steps, last);
  }
}
