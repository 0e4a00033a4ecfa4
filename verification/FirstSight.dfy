/**
 When a verifier first saw a chain head: a file written once, by any number of processes at once. One
 head's file is modelled. A clock shows nanoseconds and a record holds whole milliseconds, so the check that
 wrote the record answers a time a fraction of a millisecond later than those that read it.
 */
module FirstSight {
  import opened Wrappers

  const MS_NS := 1_000_000

  /** A whole record, or one that is there but not yet or no longer readable, with who was writing it. */
  datatype Record = Whole(ms: int) | Torn(writer: nat)

  /** A record counts only when it reads as a positive time. */
  predicate Readable(r: Record) {
    r.Whole? && r.ms > 0
  }

  datatype Proc =
    | Reading(now: int)
    | Removing(now: int)
    | Linking(now: int)
    | Writing(now: int)
    | Rereading(now: int)
    | Seen(at: int, kept: bool)

  datatype Sys = Sys(file: Option<Record>, procs: map<nat, Proc>)

  /** Call starts a check; Step is its next action on the file; Skip is a read or a removal that failed, which
      goes on to link; LinkFails is a link refused for anything but a file being there, as on a store without
      hard links, which creates the file in place; Fail is a store that cannot be used. */
  datatype Action = Call(pid: nat, now: int) | Step(pid: nat) | Skip(pid: nat) | LinkFails(pid: nat)
                  | Fail(pid: nat) | Crash(pid: nat)

  function Advance(file: Option<Record>, pid: nat, p: Proc): (r: (Option<Record>, Proc)) {
    match p
    case Reading(now) =>
      if file.None? then (file, Linking(now))
      else if Readable(file.value) then (file, Seen(file.value.ms * MS_NS, true)) else (file, Removing(now))
    case Removing(now) => (None, Linking(now))
    case Linking(now) => if file.Some? then (file, Rereading(now)) else (Some(Whole(now / MS_NS)), Seen(now, true))
    case Writing(now) => (if file == Some(Torn(pid)) then Some(Whole(now / MS_NS)) else file, Seen(now, true))
    case Rereading(now) =>
      (file, if file.Some? && Readable(file.value) then Seen(file.value.ms * MS_NS, true) else Seen(now, false))
    case Seen(_, _) => (file, p)
  }

  /** The file created in place, empty until it is written; a file there already is left alone, unread. */
  function InPlace(file: Option<Record>, pid: nat, p: Proc): (r: (Option<Record>, Proc)) {
    if !p.Linking? then (file, p)
    else if file.Some? then (file, Seen(p.now, false)) else (Some(Torn(pid)), Writing(p.now))
  }

  function Skipped(p: Proc): Proc {
    if p.Reading? || p.Removing? then Linking(p.now) else p
  }

  function Next(s: Sys, a: Action): Sys {
    match a
    case Call(pid, now) => if pid in s.procs then s else s.(procs := s.procs[pid := Reading(now)])
    case Step(pid) =>
      if pid in s.procs then
        var (file, p) := Advance(s.file, pid, s.procs[pid]);
        s.(file := file, procs := s.procs[pid := p])
      else s
    case LinkFails(pid) =>
      if pid in s.procs then
        var (file, p) := InPlace(s.file, pid, s.procs[pid]);
        s.(file := file, procs := s.procs[pid := p])
      else s
    case Skip(pid) => if pid in s.procs then s.(procs := s.procs[pid := Skipped(s.procs[pid])]) else s
    case Fail(pid) =>
      if pid in s.procs && !s.procs[pid].Seen? then s.(procs := s.procs[pid := Seen(s.procs[pid].now, false)]) else s
    case Crash(pid) => s.(procs := s.procs - {pid})
  }

  function Run(s: Sys, actions: seq<Action>): Sys
    decreases |actions|
  {
    if actions == [] then s else Next(Run(s, actions[..|actions| - 1]), actions[|actions| - 1])
  }

  /** What may happen: no clock shows less than the floor, and a link fails only where links may. */
  datatype Bounds = Bounds(floor: int, mayFail: bool)

  predicate Permits(b: Bounds, a: Action) {
    (a.Call? ==> a.now >= b.floor) && (a.LinkFails? ==> b.mayFail)
  }

  predicate Permitted(actions: seq<Action>, b: Bounds) {
    forall a <- actions :: Permits(b, a)
  }

  /** Every check that says its sight is on disk names one and the same millisecond. */
  predicate Agree(s: Sys) {
    forall p <- s.procs, q <- s.procs ::
      s.procs[p].Seen? && s.procs[p].kept && s.procs[q].Seen? && s.procs[q].kept ==>
        s.procs[p].at / MS_NS == s.procs[q].at / MS_NS
  }

  // ----- where first writer wins --------------------------------------------------------------------

  predicate ProcInv(file: Option<Record>, b: Bounds, p: Proc) {
    match p
    case Reading(now) => now >= b.floor
    case Linking(now) => now >= b.floor
    case Rereading(now) => file.Some?
    case Seen(at, kept) => kept ==> file == Some(Whole(at / MS_NS))
    case _ => false
  }

  /** A readable record, once there, is the file's for good; and where there is none, links and clocks are good. */
  predicate Inv(s: Sys, b: Bounds) {
    && (s.file.Some? ==> Readable(s.file.value))
    && (s.file.None? ==> b.floor >= MS_NS && !b.mayFail)
    && forall pid <- s.procs :: ProcInv(s.file, b, s.procs[pid])
  }

  lemma {:induction false} NextKeeps(s: Sys, b: Bounds, a: Action)
    requires Inv(s, b) && Permits(b, a)
    ensures Inv(Next(s, a), b)
    ensures s.file.Some? ==> Next(s, a).file == s.file
  {
    var t := Next(s, a);
    forall pid <- t.procs ensures ProcInv(t.file, b, t.procs[pid]) {
      if pid in s.procs {
        assert ProcInv(s.file, b, s.procs[pid]);
      }
    }
  }

  lemma {:induction false} RunKeeps(s: Sys, b: Bounds, actions: seq<Action>)
    requires Inv(s, b) && Permitted(actions, b)
    ensures Inv(Run(s, actions), b)
    ensures s.file.Some? ==> Run(s, actions).file == s.file
    decreases |actions|
  {
    if actions != [] {
      RunKeeps(s, b, actions[..|actions| - 1]);
      NextKeeps(Run(s, actions[..|actions| - 1]), b, actions[|actions| - 1]);
    }
  }

  /** The record there is readable; or there is none, no link fails and no clock is within the epoch's first
      millisecond or before it. */
  predicate Sound(s: Sys, b: Bounds) {
    if s.file.Some? then Readable(s.file.value) else b.floor >= MS_NS && !b.mayFail
  }

  /** From there the record is linked at most once and never changes, and every check that says its sight is
      kept names the record's own millisecond: the one that wrote it by its own clock, the others exactly. */
  lemma {:induction false} OneSight(s: Sys, b: Bounds, actions: seq<Action>, more: seq<Action>)
    requires s.procs == map[] && Sound(s, b) && Permitted(actions, b) && Permitted(more, b)
    ensures var mid, end := Run(s, actions), Run(Run(s, actions), more);
            && (mid.file.Some? ==> end.file == mid.file)
            && (forall p <- end.procs ::
                  end.procs[p].Seen? && end.procs[p].kept ==> end.file == Some(Whole(end.procs[p].at / MS_NS)))
            && Agree(end)
  {
    RunKeeps(s, b, actions);
    RunKeeps(Run(s, actions), b, more);
  }

  // ----- where it does not ---------------------------------------------------------------------------

  lemma Then(s: Sys, actions: seq<Action>, a: Action, b: Bounds) returns (more: seq<Action>)
    requires Permitted(actions, b) && Permits(b, a)
    ensures Permitted(more, b) && Run(s, more) == Next(Run(s, actions), a)
  {
    more := actions + [a];
    assert more[..|actions|] == actions;
  }

  lemma TwoTimes(s: Sys, actions: seq<Action>, b: Bounds, t: int, u: int)
    requires Permitted(actions, b) && t / MS_NS != u / MS_NS
    requires Run(s, actions).procs == map[0 := Seen(t, true), 1 := Seen(u, true)]
    ensures exists actions :: Permitted(actions, b) && !Agree(Run(s, actions))
  {
    assert 0 in Run(s, actions).procs && 1 in Run(s, actions).procs;
  }

  lemma StartsAt(s: Sys)
    ensures Run(s, []) == s
  {
  }

  /** Two checks both read what no one can, both remove it, and the second removes the first one's record. */
  lemma {:induction false} TornSplits(s: Sys, b: Bounds)
    requires s.procs == map[] && s.file.Some? && !Readable(s.file.value)
    ensures exists actions :: Permitted(actions, b) && !Agree(Run(s, actions))
  {
    hide Run, Agree;
    StartsAt(s);
    var t: int := if b.floor > MS_NS then b.floor else MS_NS;
    var u := t + MS_NS;
    var a := Then(s, [], Call(0, t), b);
    assert Run(s, a) == Sys(s.file, map[0 := Reading(t)]);
    a := Then(s, a, Call(1, u), b);
    assert Run(s, a) == Sys(s.file, map[0 := Reading(t), 1 := Reading(u)]);
    a := Then(s, a, Step(0), b);
    assert Run(s, a) == Sys(s.file, map[0 := Removing(t), 1 := Reading(u)]);
    a := Then(s, a, Step(1), b);
    assert Run(s, a) == Sys(s.file, map[0 := Removing(t), 1 := Removing(u)]);
    a := Then(s, a, Step(0), b);
    assert Run(s, a) == Sys(None, map[0 := Linking(t), 1 := Removing(u)]);
    a := Then(s, a, Step(0), b);
    assert Run(s, a) == Sys(Some(Whole(t / MS_NS)), map[0 := Seen(t, true), 1 := Removing(u)]);
    a := Then(s, a, Step(1), b);
    assert Run(s, a) == Sys(None, map[0 := Seen(t, true), 1 := Linking(u)]);
    a := Then(s, a, Step(1), b);
    assert Run(s, a) == Sys(Some(Whole(u / MS_NS)), map[0 := Seen(t, true), 1 := Seen(u, true)]);
    TwoTimes(s, a, b, t, u);
  }

  /** One link that fails is enough: the file it creates in place is read before it is written, removed after,
      and linked anew by the check that read it. */
  lemma {:induction false} LinkFailureSplits(s: Sys, b: Bounds)
    requires s.procs == map[] && s.file.None? && b.mayFail
    ensures exists actions :: Permitted(actions, b) && !Agree(Run(s, actions))
  {
    hide Run, Agree;
    StartsAt(s);
    var t: int := if b.floor > MS_NS then b.floor else MS_NS;
    var u := t + MS_NS;
    var a := Then(s, [], Call(0, t), b);
    assert Run(s, a) == Sys(None, map[0 := Reading(t)]);
    a := Then(s, a, Call(1, u), b);
    assert Run(s, a) == Sys(None, map[0 := Reading(t), 1 := Reading(u)]);
    a := Then(s, a, Step(0), b);
    assert Run(s, a) == Sys(None, map[0 := Linking(t), 1 := Reading(u)]);
    a := Then(s, a, LinkFails(0), b);
    assert Run(s, a) == Sys(Some(Torn(0)), map[0 := Writing(t), 1 := Reading(u)]);
    a := Then(s, a, Step(1), b);
    assert Run(s, a) == Sys(Some(Torn(0)), map[0 := Writing(t), 1 := Removing(u)]);
    a := Then(s, a, Step(0), b);
    assert Run(s, a) == Sys(Some(Whole(t / MS_NS)), map[0 := Seen(t, true), 1 := Removing(u)]);
    a := Then(s, a, Step(1), b);
    assert Run(s, a) == Sys(None, map[0 := Seen(t, true), 1 := Linking(u)]);
    a := Then(s, a, Step(1), b);
    assert Run(s, a) == Sys(Some(Whole(u / MS_NS)), map[0 := Seen(t, true), 1 := Seen(u, true)]);
    TwoTimes(s, a, b, t, u);
  }

  /** A record of no whole millisecond is never read again: the next check removes it. */
  lemma {:induction false} OldClockSplits(s: Sys, b: Bounds)
    requires s.procs == map[] && s.file.None? && b.floor < MS_NS
    ensures exists actions :: Permitted(actions, b) && !Agree(Run(s, actions))
  {
    hide Run, Agree;
    StartsAt(s);
    var a := Then(s, [], Call(0, b.floor), b);
    assert Run(s, a) == Sys(None, map[0 := Reading(b.floor)]);
    a := Then(s, a, Step(0), b);
    assert Run(s, a) == Sys(None, map[0 := Linking(b.floor)]);
    a := Then(s, a, Step(0), b);
    assert Run(s, a) == Sys(Some(Whole(b.floor / MS_NS)), map[0 := Seen(b.floor, true)]);
    a := Then(s, a, Call(1, MS_NS), b);
    assert Run(s, a) == Sys(Some(Whole(b.floor / MS_NS)), map[0 := Seen(b.floor, true), 1 := Reading(MS_NS)]);
    a := Then(s, a, Step(1), b);
    assert Run(s, a) == Sys(Some(Whole(b.floor / MS_NS)), map[0 := Seen(b.floor, true), 1 := Removing(MS_NS)]);
    a := Then(s, a, Step(1), b);
    assert Run(s, a) == Sys(None, map[0 := Seen(b.floor, true), 1 := Linking(MS_NS)]);
    a := Then(s, a, Step(1), b);
    assert Run(s, a) == Sys(Some(Whole(1)), map[0 := Seen(b.floor, true), 1 := Seen(MS_NS, true)]);
    TwoTimes(s, a, b, b.floor, MS_NS);
  }

  /** However any number of checks are interleaved, fail or crash, all that say their sight is kept agree:
      exactly when the record there is readable, or there is none, no link fails but for a file being there,
      and no clock is within the epoch's first millisecond or before it. */
  lemma FirstWriterWinsExactly(s: Sys, b: Bounds)
    requires s.procs == map[]
    ensures (forall actions :: Permitted(actions, b) ==> Agree(Run(s, actions))) <==> Sound(s, b)
  {
    if Sound(s, b) {
      forall actions | Permitted(actions, b) ensures Agree(Run(s, actions)) {
        assert Permitted([], b);
        OneSight(s, b, actions, []);
      }
    } else if s.file.Some? {
      TornSplits(s, b);
    } else if b.mayFail {
      LinkFailureSplits(s, b);
    } else {
      OldClockSplits(s, b);
    }
  }

  // ----- the check itself -----------------------------------------------------------------------------

  ghost predicate Leads(s: Sys, t: Sys, b: Bounds) {
    exists actions :: Permitted(actions, b) && Run(s, actions) == t
  }

  lemma LeadsToItself(s: Sys, b: Bounds)
    ensures Leads(s, s, b)
  {
    assert Run(s, []) == s;
  }

  lemma LeadsOn(s: Sys, t: Sys, a: Action, b: Bounds)
    requires Leads(s, t, b) && Permits(b, a)
    ensures Leads(s, Next(t, a), b)
  {
    var actions :| Permitted(actions, b) && Run(s, actions) == t;
    var more := Then(s, actions, a, b);
  }

  lemma LeadsKeeps(s: Sys, t: Sys, b: Bounds)
    requires Inv(s, b) && Leads(s, t, b)
    ensures Inv(t, b) && (s.file.Some? ==> t.file == s.file)
  {
    var actions :| Permitted(actions, b) && Run(s, actions) == t;
    RunKeeps(s, b, actions);
  }

  /** On a store that does what it is asked: a readable record's own time, and a check alone there links its own
      over whatever else there is. */
  predicate SightIs(before: Option<Record>, after: Option<Record>, clock: int, at: int, kept: bool) {
    && kept
    && if before.Some? && Readable(before.value) then after == before && at == before.value.ms * 1_000_000
       else after == Some(Whole(clock / 1_000_000)) && at == clock
  }

  /** `works` is a store on which nothing asked of it fails; `alone` is a check with no other at the same time. */
  class Store {
    const bounds: Bounds
    const works: bool
    const alone: bool
    var now: Sys

    constructor (s: Sys, b: Bounds, works: bool, alone: bool)
      ensures now == s && bounds == b && this.works == works && this.alone == alone
    {
      now, bounds, this.works, this.alone := s, b, works, alone;
    }

    /** Other checks run meanwhile: any of their actions, any number of times. */
    method Others(me: nat, ghost start: Sys)
      requires me in now.procs && Leads(start, now, bounds)
      modifies this
      ensures Leads(start, now, bounds)
      ensures me in now.procs && now.procs[me] == old(now).procs[me]
      ensures alone ==> now == old(now)
    {
      hide Leads;
      var actions: seq<Action> :| alone ==> actions == [];
      for i := 0 to |actions|
        invariant Leads(start, now, bounds)
        invariant me in now.procs && now.procs[me] == old(now).procs[me]
        invariant alone ==> now == old(now)
      {
        var a := actions[i];
        if a.pid != me && Permits(bounds, a) {
          LeadsOn(start, now, a, bounds);
          now := Next(now, a);
        }
      }
    }

    /** This check's own next action. */
    method Act(me: nat, a: Action, ghost start: Sys)
      requires me in now.procs && Leads(start, now, bounds) && a.pid == me && Permits(bounds, a)
      modifies this
      ensures Leads(start, now, bounds) && now == Next(old(now), a)
    {
      hide Leads;
      LeadsOn(start, now, a, bounds);
      now := Next(now, a);
    }

    /** When this head was first seen, and whether that is on disk. Where the store does what it is asked: always,
        if the record there is readable or none can go wrong, whatever other checks do meanwhile, and then the one
        record is the sight; and alone, whatever is there before. */
    method FirstSightOf(me: nat, clock: int) returns (at: int, kept: bool)
      requires me !in now.procs && clock >= bounds.floor
      modifies this
      ensures Leads(old(now), now, bounds) && me in now.procs && now.procs[me] == Seen(at, kept)
      ensures works && Inv(old(now), bounds) ==> kept && now.file == Some(Whole(at / MS_NS))
      ensures works && (alone || (Inv(old(now), bounds) && old(now).file.Some?)) ==>
                SightIs(old(now).file, now.file, clock, at, kept)
    {
      hide Leads, Inv, Sound;
      ghost var start := now;
      LeadsToItself(start, bounds);
      LeadsOn(start, start, Call(me, clock), bounds);
      now := Next(now, Call(me, clock));
      Others(me, start);
      if Inv(start, bounds) {
        LeadsKeeps(start, now, bounds);
        RecordIsReadable(now, bounds);
      }
      var known := ReadOwn(me, clock, start);
      if known.Some? {
        at, kept := known.value, true;
      } else {
        Others(me, start);
        var usable: bool :| works ==> usable;
        if usable {
          at, kept := Place(me, clock, start);
        } else {
          Act(me, Fail(me), start);
          at, kept := clock, false;
        }
      }
      if works && Inv(start, bounds) {
        LeadsKeeps(start, now, bounds);
        KeptIsRecord(now, bounds, me);
      }
    }

    /** The record's time, when it can be read; one that is no record is removed, if it can be. */
    method ReadOwn(me: nat, clock: int, ghost start: Sys) returns (known: Option<int>)
      requires me in now.procs && now.procs[me] == Reading(clock) && Leads(start, now, bounds)
      modifies this
      ensures Leads(start, now, bounds) && me in now.procs
      ensures now.procs[me] == match known case Some(at) => Seen(at, true) case None => Linking(clock)
      ensures works ==> (known.Some? <==> old(now).file.Some? && Readable(old(now).file.value))
      ensures known.Some? ==>
        var file := old(now).file;
        file.Some? && file.value.Whole? && known.value == file.value.ms * 1_000_000
      ensures known.Some? ==> now.file == old(now).file
      ensures works && alone && known.None? ==> now.file.None?
    {
      hide Leads;
      var file := now.file;
      var canRead: bool, canRemove: bool :| works ==> canRead && canRemove;
      if !canRead || file.None? {
        Act(me, if file.None? then Step(me) else Skip(me), start);
        return None;
      }
      Act(me, Step(me), start);
      if Readable(file.value) {
        return Some(file.value.ms * MS_NS);
      }
      Others(me, start);
      Act(me, if canRemove then Step(me) else Skip(me), start);
      return None;
    }

    /** Links the record into place, or reads the one that is there; a link that fails otherwise creates it
        in place. */
    method Place(me: nat, clock: int, ghost start: Sys) returns (at: int, kept: bool)
      requires me in now.procs && now.procs[me] == Linking(clock) && Leads(start, now, bounds)
      modifies this
      ensures Leads(start, now, bounds) && me in now.procs && now.procs[me] == Seen(at, kept)
      ensures works && Inv(start, bounds) ==> kept
      ensures works && old(now).file.None? ==> now.file == Some(Whole(clock / 1_000_000)) && at == clock && kept
    {
      hide Leads;
      var fails: bool :| fails ==> bounds.mayFail && !works;
      var file := now.file;
      Act(me, if fails then LinkFails(me) else Step(me), start);
      if fails && file.Some? {
        return clock, false;
      }
      if !fails && file.None? {
        return clock, true;
      }
      Others(me, start);
      var written: bool :| true;
      if fails && !written {
        Act(me, Fail(me), start);
        return clock, false;
      }
      file := now.file;
      if works && Inv(start, bounds) {
        LeadsKeeps(start, now, bounds);
        RereadIsThere(now, bounds, me);
      }
      Act(me, Step(me), start);
      if !fails && !(file.Some? && Readable(file.value)) {
        return clock, false;
      }
      return if fails then clock else file.value.ms * MS_NS, true;
    }
  }

  lemma RecordIsReadable(s: Sys, b: Bounds)
    requires Inv(s, b)
    ensures s.file.Some? ==> Readable(s.file.value)
  {
  }

  lemma RereadIsThere(s: Sys, b: Bounds, me: nat)
    requires Inv(s, b) && me in s.procs && s.procs[me].Rereading?
    ensures s.file.Some? && Readable(s.file.value)
  {
  }

  lemma KeptIsRecord(s: Sys, b: Bounds, me: nat)
    requires Inv(s, b) && me in s.procs && s.procs[me].Seen? && s.procs[me].kept
    ensures s.file == Some(Whole(s.procs[me].at / MS_NS))
  {
  }
}
