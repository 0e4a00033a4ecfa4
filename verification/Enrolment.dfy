/**
 `enroll --force` and the look-then-confirm enrolment: two programs over one account listing that must
 settle on the same identity. Address parsing, case folding and the token's encoding are given.
 */
module Enrolment {
  import opened Wrappers
  import opened Text
  import opened AgentSelection

  /** One row of the account's listing, every column as text. */
  datatype ListRow = ListRow(state: string, address: string, addr128: string, agent: string, id: string,
                             fqdn: string, title: string, created: int)

  datatype Live = Live(agent: string, addr: string, fqdn: string, title: string, created: int)

  /** What a device's marker records. */
  datatype Marker = Marker(addr: Addr, name: string, agent: string)

  /** No file, one cut short with what a lenient reading makes of it, or a whole record. */
  datatype MarkerFile = NoMarker | Incomplete(lenient: Option<Marker>) | Whole(marker: Marker)

  /** What the decision is taken on: one listing that answered, and what this device holds. */
  datatype Facts = Facts(listing: seq<ListRow>, marker: MarkerFile, saved: string, names: seq<string>,
                         explicit: bool, account: string, keyFP: string, publication: string)
  {
    /** The facts as the ladder has them: of a record cut short it takes what it can read. */
    function Lenient(): Facts {
      if !marker.Incomplete? then this
      else this.(marker := if marker.lenient.Some? then Whole(marker.lenient.value) else NoMarker)
    }

    /** Both programs refuse without a name, and a host name in the list is never empty. */
    predicate Named() {
      names != [] && forall n <- names :: n != ""
    }
  }

  datatype Rung = RebindOwn | ReuseNamed | RegisterNew

  datatype Candidate = Candidate(rung: Rung, agent: Live, title: string)

  /** Which addresses are of the 128-bit family, and which of those only wrap an older one. */
  datatype Families = Families(is6: Addr -> bool, mapped: Addr -> bool, text: Addr -> string)

  const SERVED := "served"

  /** The first that is not empty. */
  function Field(a: string, b: string): string {
    if a != "" then a else b
  }

  /** The first that is not blank, as it is. */
  function FirstNonBlank(a: string, b: string): string {
    if TrimSpace(a) != "" then a else if TrimSpace(b) != "" then b else ""
  }

  function FirstLabel(fqdn: string): string {
    var s := TrimDot(TrimSpace(fqdn));
    var i := IndexOf(s, '.');
    if i >= 0 then s[..i] else s
  }

  /** What stands before the first dot, and all of it without one; the last dot is no part of a name. */
  lemma FirstLabelExactly(first: string, rest: string)
    requires first != "" && Trimmed(first) && '.' !in first && Trimmed(first + "." + rest)
    requires rest != "" && rest[|rest| - 1] != '.'
    ensures FirstLabel(first + "." + rest) == first && FirstLabel(first) == first && FirstLabel("." + rest) == ""
  {
    var s := first + "." + rest;
    TrimmedStays(s);
    TrimmedStays(first);
    assert s[|first|] == '.' && s[..|first|] == first && s[|s| - 1] == rest[|rest| - 1];
    var t := "." + rest;
    assert t[0] == '.' && t[|t| - 1] == s[|s| - 1];
    TrimmedStays(t);
  }

  // ----- reading the listing ------------------------------------------------------------------------

  predicate Reusable(r: ListRow) {
    Lower(r.state) in {"", "active"} && Field(r.address, r.addr128) != ""
  }

  function LiveOf(r: ListRow): Live {
    Live(Field(r.agent, r.id), Field(r.address, r.addr128), r.fqdn, r.title, r.created)
  }

  function LiveIn(rows: seq<ListRow>): seq<Live> {
    if rows == [] then []
    else (if Reusable(rows[0]) then [LiveOf(rows[0])] else []) + LiveIn(rows[1..])
  }

  function ChoicesIn(rows: seq<ListRow>): seq<Choice> {
    if rows == [] then []
    else
      var r := rows[0];
      var c := Choice(Field(r.title, Field(r.agent, r.id)), Field(r.address, r.addr128), Field(r.agent, r.id));
      (if c.name == "" && c.addr == "" then [] else [c]) + ChoicesIn(rows[1..])
  }

  // ----- what both programs look for --------------------------------------------------------------------

  predicate IsMarked(w: World, m: Live, prev: Marker) {
    w.parse(m.addr) == Some(prev.addr) || (prev.agent != "" && m.agent != "" && w.SameFold(m.agent, prev.agent))
  }

  /** The first agent the marker names, with the marker's handle where the listing gives none. */
  function Marked(w: World, live: seq<Live>, prev: Marker): Option<Live> {
    if live == [] then None
    else if IsMarked(w, live[0], prev) then Some(live[0].(agent := FirstNonBlank(live[0].agent, prev.agent)))
    else Marked(w, live[1..], prev)
  }

  predicate AnswersTo(w: World, m: Live, name: string) {
    w.SameFold(m.title, name) || w.SameFold(m.agent, name) || w.SameFold(FirstLabel(m.fqdn), name)
  }

  /** The newest agent under a name; of several made at once, the first listed. */
  function Newest(w: World, live: seq<Live>, name: string): Option<Live> {
    if live == [] then None
    else
      var best, m := Newest(w, live[..|live| - 1], name), live[|live| - 1];
      if AnswersTo(w, m, name) && (best.None? || m.created > best.value.created) then Some(m) else best
  }

  /** Answers to the name; no one who does was made later, and no one listed before was made as late. */
  predicate IsFirstOfLatest(w: World, live: seq<Live>, name: string, i: nat)
    requires i < |live|
  {
    && AnswersTo(w, live[i], name)
    && forall j | 0 <= j < |live| && AnswersTo(w, live[j], name) ::
         if j < i then live[j].created < live[i].created else live[j].created <= live[i].created
  }

  lemma {:induction false} SomeNewest(w: World, live: seq<Live>, name: string)
    ensures Newest(w, live, name).None? <==> forall m <- live :: !AnswersTo(w, m, name)
    decreases |live|
  {
    hide AnswersTo;
    if live != [] {
      var n := |live| - 1;
      SomeNewest(w, live[..n], name);
      assert live == live[..n] + [live[n]];
    }
  }

  lemma LatestStays(w: World, before: seq<Live>, m: Live, name: string, i: nat)
    requires i < |before| && IsFirstOfLatest(w, before, name, i)
    requires AnswersTo(w, m, name) ==> m.created <= before[i].created
    ensures IsFirstOfLatest(w, before + [m], name, i)
  {
    hide AnswersTo;
  }

  lemma LatestMoves(w: World, before: seq<Live>, m: Live, name: string)
    requires AnswersTo(w, m, name)
    requires forall j | 0 <= j < |before| && AnswersTo(w, before[j], name) :: before[j].created < m.created
    ensures IsFirstOfLatest(w, before + [m], name, |before|)
  {
    hide AnswersTo;
  }

  /** Where the newest stands. */
  lemma {:induction false} NewestAt(w: World, live: seq<Live>, name: string) returns (i: nat)
    requires Newest(w, live, name).Some?
    ensures i < |live| && live[i] == Newest(w, live, name).value && IsFirstOfLatest(w, live, name, i)
    decreases |live|
  {
    hide AnswersTo, IsFirstOfLatest;
    var n := |live| - 1;
    var before, m := live[..n], live[n];
    assert live == before + [m];
    var earlier := Newest(w, before, name);
    if earlier.None? {
      SomeNewest(w, before, name);
      LatestMoves(w, before, m, name);
      i := n;
    } else {
      i := NewestAt(w, before, name);
      if AnswersTo(w, m, name) && m.created > earlier.value.created {
        LatestIsGreatest(w, before, name, i);
        LatestMoves(w, before, m, name);
        i := n;
      } else {
        LatestStays(w, before, m, name, i);
      }
    }
  }

  lemma LatestIsGreatest(w: World, live: seq<Live>, name: string, i: nat)
    requires i < |live| && IsFirstOfLatest(w, live, name, i)
    ensures forall j | 0 <= j < |live| && AnswersTo(w, live[j], name) :: live[j].created <= live[i].created
  {
    hide AnswersTo;
  }

  /** Somebody answers to the name exactly when there is a newest, and then that is the first of the latest. */
  lemma NewestIsFirstOfLatest(w: World, live: seq<Live>, name: string)
    ensures Newest(w, live, name).None? <==> forall m <- live :: !AnswersTo(w, m, name)
    ensures Newest(w, live, name).Some? ==>
              exists i | 0 <= i < |live| :: live[i] == Newest(w, live, name).value && IsFirstOfLatest(w, live, name, i)
  {
    hide AnswersTo, IsFirstOfLatest, Newest;
    SomeNewest(w, live, name);
    if Newest(w, live, name).Some? {
      var i := NewestAt(w, live, name);
    }
  }

  method RegisteredAgentIn(w: World, live: seq<Live>, name: string) returns (best: Option<Live>)
    ensures best == if name == "" then None else Newest(w, live, name)
  {
    best := None;
    if name == "" {
      return;
    }
    for i := 0 to |live|
      invariant best == Newest(w, live[..i], name)
    {
      assert live[..i + 1][..i] == live[..i];
      var m := live[i];
      if !w.SameFold(m.title, name) && !w.SameFold(m.agent, name) && !w.SameFold(FirstLabel(m.fqdn), name) {
        continue;
      }
      if best.None? || m.created > best.value.created {
        best := Some(m);
      }
    }
    assert live[..|live|] == live;
  }

  function Prev(f: Facts): Option<Marker> {
    if f.marker.Whole? then Some(f.marker.marker) else None
  }

  predicate SavedIsPrev(w: World, saved: string, prev: Option<Marker>) {
    && prev.Some? && TrimSpace(saved) != ""
    && ((prev.value.agent != "" && w.SameFold(TrimSpace(saved), prev.value.agent))
        || w.parse(saved) == Some(prev.value.addr))
  }

  predicate SavedGone(w: World, listing: seq<ListRow>, saved: string) {
    forall c <- ChoicesIn(listing) :: !Matches(w, c, saved)
  }

  // ----- the decision behind preview and confirm ----------------------------------------------------------

  function ByName(w: World, live: seq<Live>, names: seq<string>): Option<(Live, string)> {
    if names == [] then None
    else
      match Newest(w, live, names[0])
      case Some(m) => Some((m, names[0]))
      case None => ByName(w, live, names[1..])
  }

  function DecideCandidate(w: World, f: Facts): Candidate
    requires f.Named()
  {
    var live := LiveIn(f.listing);
    var own := if !f.explicit && Prev(f).Some? then Marked(w, live, Prev(f).value) else None;
    if own.Some? then Candidate(RebindOwn, own.value, FirstNonBlank(own.value.title, Prev(f).value.agent))
    else
      match ByName(w, live, f.names)
      case Some((m, n)) => Candidate(ReuseNamed, m, FirstNonBlank(m.title, n))
      case None => Candidate(RegisterNew, Live("", "", "", "", 0), f.names[0])
  }

  /** The plan a preview shows and a token binds: thirteen fields. */
  datatype Plan = Plan(outcome: Rung, agent: string, address: string, fqdn: string, rawLabel: string, account: string,
                       keyFP: string, served: string, savedReplace: bool, previousAddr: string, previousAgent: string,
                       saved: string, explicitName: string)

  datatype Refusal = MarkerIncomplete | BadAddress | NotServed

  predicate SavedReplaceIn(w: World, f: Facts) {
    TrimSpace(f.saved) == "" || SavedIsPrev(w, f.saved, Prev(f)) || SavedGone(w, f.listing, f.saved)
  }

  function DecideEnroll(w: World, fam: Families, f: Facts): (Plan, Option<Refusal>)
    requires f.Named()
  {
    var c, prev := DecideCandidate(w, f), Prev(f);
    var p := Plan(c.rung, "", "", "", c.title, f.account, f.keyFP, "", SavedReplaceIn(w, f),
                  if prev.Some? then fam.text(prev.value.addr) else "", if prev.Some? then prev.value.agent else "",
                  TrimSpace(f.saved), if f.explicit then f.names[0] else "");
    if f.marker.Incomplete?
    then (Plan(RegisterNew, "", "", "", "", "", "", "", false, "", "", "", ""), Some(MarkerIncomplete))
    else if c.rung == RegisterNew then (p, None)
    else
      var q := p.(agent := c.agent.agent, fqdn := TrimDot(c.agent.fqdn));
      var a := w.parse(TrimSpace(c.agent.addr));
      if a.None? || !fam.is6(a.value) || fam.mapped(a.value) then (q.(address := c.agent.addr), Some(BadAddress))
      else
        var r := q.(address := fam.text(a.value), served := f.publication);
        (r, if f.publication == SERVED then None else Some(NotServed))
  }

  // ----- what a bind leaves on the device -------------------------------------------------------------------

  /** The identity bound, and the device's marker and saved agent as they then are. */
  datatype Bound = Bound(rung: Rung, marker: Marker, saved: string)

  datatype Result = Done(bound: Bound) | Stopped

  /** Whose identity is bound: this person's, or a machine's service's, which then needs the key used too; a
      monitor's token is no key. */
  datatype Target = Person | Service(cred: string, monitor: bool)

  /** The service holds another key already, or this run's is none. */
  predicate Clashes(t: Target, key: Option<string>) {
    t.Service? && key.Some? && (key.value != t.cred || t.monitor)
  }

  /** The service is given the key when it has none. */
  function KeyAfter(t: Target, key: Option<string>): Option<string> {
    if t.Service? && key.None? && !t.monitor then Some(t.cred) else key
  }

  /** What a registration, or an identity request, answered; no row is a call that failed. */
  type Answer = Option<Live>

  /** A service's saved agent is its own: one a person picked for it stays even when the account lacks it. */
  function SavedAfter(w: World, t: Target, f: Facts, agent: string): string {
    match t
    case Person => Pinned(w, SavedReplaceIn(w, f), f.saved, agent)
    case Service(_, _) =>
      if TrimSpace(agent) != "" && (TrimSpace(f.saved) == "" || SavedIsPrev(w, f.saved, Prev(f)))
      then TrimSpace(agent) else f.saved
  }

  function Pinned(w: World, replace: bool, saved: string, agent: string): string {
    if replace && agent != "" && !w.SameFold(saved, agent) then TrimSpace(agent) else saved
  }

  /** An envelope's fields: the label stands in for a handle that is not there. */
  function EnvelopeAgent(m: Live, title: string): string {
    Field(m.agent, title)
  }

  function EnvelopeName(m: Live, fallback: string): string {
    if TrimDot(m.fqdn) == "" then fallback else TrimDot(m.fqdn)
  }

  /** What the ladder's envelope answers for a candidate, or for the registration that stands in for one. */
  function Answered(c: Candidate, register: Answer, identity: Answer): Answer {
    if c.rung != RegisterNew then Some(c.agent)
    else
      var a := if register.Some? && register.value.addr != "" then register else identity;
      if a.Some? && a.value.addr != "" then a else None
  }

  function RunAgent(f: Facts, c: Candidate, m: Live): string {
    match c.rung
    case RebindOwn => FirstNonBlank(EnvelopeAgent(m, c.title), if Prev(f).Some? then Prev(f).value.agent else "")
    case ReuseNamed => EnvelopeAgent(m, c.title)
    case RegisterNew => EnvelopeAgent(m, m.title)
  }

  function RunName(w: World, f: Facts, c: Candidate, m: Live): string
    requires f.Named()
  {
    EnvelopeName(m, match c.rung
                    case RebindOwn => FirstNonBlank(if Prev(f).Some? then Prev(f).value.name else "", f.names[0])
                    case ReuseNamed =>
                      (match ByName(w, LiveIn(f.listing), f.names) case Some((_, n)) => n case None => "")
                    case RegisterNew => f.names[0])
  }

  /** The first name an agent answers to, and the newest such agent. */
  method FindByName(w: World, live: seq<Live>, names: seq<string>) returns (found: Option<(Live, string)>)
    requires forall n <- names :: n != ""
    ensures found == ByName(w, live, names)
  {
    for i := 0 to |names|
      invariant ByName(w, live, names) == ByName(w, live, names[i..])
    {
      assert names[i] in names;
      var best := RegisteredAgentIn(w, live, names[i]);
      if best.Some? {
        return Some((best.value, names[i]));
      }
      assert names[i..][1..] == names[i + 1..];
    }
    return None;
  }

  /** The rungs in turn: the marker's own identity, an agent under one of the names, else a new one. */
  method Climb(w: World, f: Facts) returns (c: Candidate, name: string)
    requires f.Named()
    ensures c == DecideCandidate(w, f)
    ensures c.rung != RegisterNew ==> name == RunName(w, f, c, c.agent)
    ensures c.rung == RegisterNew ==> name == f.names[0]
  {
    var live, prev := LiveIn(f.listing), Prev(f);
    if !f.explicit && prev.Some? {
      var own := Marked(w, live, prev.value);
      if own.Some? {
        return Candidate(RebindOwn, own.value, FirstNonBlank(own.value.title, prev.value.agent)),
               EnvelopeName(own.value, FirstNonBlank(prev.value.name, f.names[0]));
      }
    }
    var found := FindByName(w, live, f.names);
    if found.Some? {
      var (m, n) := found.value;
      return Candidate(ReuseNamed, m, FirstNonBlank(m.title, n)), EnvelopeName(m, n);
    }
    return Candidate(RegisterNew, Live("", "", "", "", 0), f.names[0]), f.names[0];
  }

  function RegisteredName(w: World, f: Facts, c: Candidate, m: Live): (name: string)
    requires f.Named() && c.rung == RegisterNew
    ensures name == RunName(w, f, c, m)
  {
    EnvelopeName(m, f.names[0])
  }

  /** The saved agent is replaced when there is none, when it names the identity bound before, or when the
      account no longer has it. */
  method ReplaceSaved(w: World, f: Facts) returns (replace: bool)
    requires TrimSpace(f.saved) == f.saved
    ensures replace == SavedReplaceIn(w, f)
  {
    replace := f.saved == "";
    if !replace {
      replace := SavedIsPrev(w, f.saved, Prev(f));
      if !replace {
        replace := SavedGone(w, f.listing, f.saved);
      }
    }
  }

  /** The rung taken and the marker it comes to: the marker's own identity, also when the marker was cut
      short, an agent under a name, a registration, or this key's own identity when the registration fails. */
  method TakeRung(w: World, fam: Families, f: Facts, register: Answer, identity: Answer)
    returns (chosen: Option<(Rung, Marker)>)
    requires f.Named()
    ensures chosen == ChosenBy(w, fam, f, register, identity)
  {
    hide DecideCandidate, RunName, RunAgent;
    var c, name := Climb(w, f);
    var m := c.agent;
    if c.rung == RegisterNew {
      var answered := Answered(c, register, identity);
      if answered.None? {
        return None;
      }
      m := answered.value;
      name := RegisteredName(w, f, c, m);
    }
    var addr := w.parse(m.addr);
    if addr.None? || !fam.is6(addr.value) {
      return None;
    }
    return Some((c.rung, Marker(addr.value, name, RunAgent(f, c, m))));
  }

  class Device {
    var marker: MarkerFile
    var saved: string
    var key: Option<string>

    constructor (marker: MarkerFile, saved: string, key: Option<string>)
      ensures this.marker == marker && this.saved == saved && this.key == key
    {
      this.marker, this.saved, this.key := marker, saved, key;
    }

    /** Writes the marker, then the saved agent if it is to be replaced by another. */
    method Record(w: World, rung: Rung, addr: Addr, name: string, agent: string, replace: bool) returns (b: Bound)
      modifies this`marker, this`saved
      ensures b == Bound(rung, Marker(addr, name, agent), Pinned(w, replace, old(saved), agent))
      ensures marker == Whole(b.marker) && saved == b.saved
    {
      marker := Whole(Marker(addr, name, agent));
      if replace && agent != "" && !w.SameFold(saved, agent) {
        saved := TrimSpace(agent);
      }
      return Bound(rung, Marker(addr, name, agent), saved);
    }

    /** The service's profile: its key first, then its marker, then its own saved agent. */
    method RecordForService(w: World, f: Facts, t: Target, rung: Rung, m: Marker) returns (b: Bound)
      requires t.Service? && !Clashes(t, key) && saved == f.saved && TrimSpace(f.saved) == f.saved
      modifies this
      ensures b == Bound(rung, m, SavedAfter(w, t, f, m.agent))
      ensures marker == Whole(m) && saved == b.saved && key == KeyAfter(t, old(key))
    {
      if key.None? && !t.monitor {
        key := Some(t.cred);
      }
      marker := Whole(m);
      if m.agent != "" && (saved == "" || SavedIsPrev(w, saved, Prev(f))) {
        var agent := TrimSpace(m.agent);
        if agent != "" {
          saved := agent;
        }
      }
      return Bound(rung, m, saved);
    }

    /** The forced ladder. A service that holds another key stops it before anything is asked. */
    method RunEnroll(w: World, fam: Families, read: Facts, t: Target, register: Answer, identity: Answer)
      returns (r: Result)
      requires read.Named() && marker == read.marker && saved == read.saved && TrimSpace(read.saved) == read.saved
      modifies this
      ensures r == if Clashes(t, old(key)) then Stopped else RunFor(w, fam, read, t, register, identity)
      ensures r.Done? ==> marker == Whole(r.bound.marker) && saved == r.bound.saved && key == KeyAfter(t, old(key))
      ensures r.Stopped? ==> marker == old(marker) && saved == old(saved) && key == old(key)
      ensures old(key).Some? || t.Person? || t.monitor ==> key == old(key)
      ensures t.Service? && r.Done? && !t.monitor ==> key == Some(t.cred)
      ensures t.Service? && old(key).Some? && (t.monitor || old(key).value != t.cred) ==> r.Stopped?
    {
      hide ChosenBy, SavedReplaceIn, SavedIsPrev;
      if t.Service? && key.Some? && (key.value != t.cred || t.monitor) {
        return Stopped;
      }
      var f := read.Lenient();
      var chosen := TakeRung(w, fam, f, register, identity);
      if chosen.None? {
        return Stopped;
      }
      var (rung, m) := chosen.value;
      var b;
      if t.Service? {
        b := RecordForService(w, f, t, rung, m);
      } else {
        var replace := ReplaceSaved(w, f);
        b := Record(w, rung, m.addr, m.name, m.agent, replace);
      }
      return Done(b);
    }

    /** Does what the plan says, reading nothing more. */
    method ActEnroll(w: World, fam: Families, p: Plan, register: Answer) returns (r: Result)
      requires saved == p.saved
      modifies this`marker, this`saved
      ensures r == ActOf(w, fam, p, register)
      ensures r.Done? ==> marker == Whole(r.bound.marker) && saved == r.bound.saved
      ensures r.Stopped? ==> marker == old(marker) && saved == old(saved)
    {
      var text, agent, name := p.address, p.agent, FirstNonBlank(p.fqdn, p.rawLabel);
      if p.outcome == RegisterNew {
        if register.None? || register.value.addr == "" {
          return Stopped;
        }
        text, agent := register.value.addr, EnvelopeAgent(register.value, register.value.title);
        name := EnvelopeName(register.value, p.rawLabel);
      }
      var addr := w.parse(text);
      if addr.None? || !fam.is6(addr.value) {
        return Stopped;
      }
      var b := Record(w, p.outcome, addr.value, name, agent, p.savedReplace);
      return Done(b);
    }
  }

  /** The rung and the marker, as a function of the facts. */
  function ChosenBy(w: World, fam: Families, f: Facts, register: Answer, identity: Answer): Option<(Rung, Marker)>
    requires f.Named()
  {
    var c := DecideCandidate(w, f);
    var m := Answered(c, register, identity);
    if m.None? then None
    else
      var a := w.parse(m.value.addr);
      if a.None? || !fam.is6(a.value) then None
      else Some((c.rung, Marker(a.value, RunName(w, f, c, m.value), RunAgent(f, c, m.value))))
  }

  /** What the forced ladder comes to for a person or a service. */
  function RunFor(w: World, fam: Families, read: Facts, t: Target, register: Answer, identity: Answer): Result
    requires read.Named()
  {
    match ChosenBy(w, fam, read.Lenient(), register, identity)
    case None => Stopped
    case Some((rung, m)) => Done(Bound(rung, m, SavedAfter(w, t, read.Lenient(), m.agent)))
  }

  function RunOf(w: World, fam: Families, read: Facts, register: Answer, identity: Answer): Result
    requires read.Named()
  {
    RunFor(w, fam, read, Person, register, identity)
  }

  /** What acting on a plan comes to. */
  function ActOf(w: World, fam: Families, p: Plan, register: Answer): Result {
    if p.outcome == RegisterNew && (register.None? || register.value.addr == "") then Stopped
    else
      var registers := p.outcome == RegisterNew;
      var a := w.parse(if registers then register.value.addr else p.address);
      var agent := if registers then EnvelopeAgent(register.value, register.value.title) else p.agent;
      var name := if registers then EnvelopeName(register.value, p.rawLabel) else FirstNonBlank(p.fqdn, p.rawLabel);
      if a.None? || !fam.is6(a.value) then Stopped
      else Done(Bound(p.outcome, Marker(a.value, name, agent), Pinned(w, p.savedReplace, p.saved, agent)))
  }

  // ----- the two agree --------------------------------------------------------------------------------------

  /** Printing an address and reading it back gives it again. */
  ghost predicate Prints(w: World, fam: Families) {
    forall a: Addr :: w.parse(fam.text(a)) == Some(a)
  }

  /** The listing gives this candidate's address as an address is read, with no space around it. */
  predicate CleanAddress(w: World, c: Candidate) {
    w.parse(c.agent.addr) == w.parse(TrimSpace(c.agent.addr))
  }

  /** Whether a handle, and not a label in its place, is recorded by both programs. */
  predicate SameHandle(c: Candidate) {
    c.agent.agent != "" || c.title == ""
  }

  /** A marker cut short is refused before anything is planned, so both programs read the same one. */
  lemma PlannedMarkerIsWhole(w: World, fam: Families, f: Facts)
    requires f.Named() && DecideEnroll(w, fam, f).1.None?
    ensures f.Lenient() == f
  {
    hide DecideCandidate, SavedReplaceIn;
  }

  lemma AgentsAgree(w: World, f: Facts)
    requires f.Named() && DecideCandidate(w, f).rung != RegisterNew
    ensures var c := DecideCandidate(w, f);
            RunAgent(f, c, c.agent) == c.agent.agent <==> SameHandle(c)
  {
    CandidateLabels(w, f);
  }

  /** A plan goes ahead exactly when the marker is not cut short and it registers a new agent, or the one it takes has
      an address of the 128-bit family, space round it aside, that wraps no older one, and the service publishes it. */
  lemma PlannedExactly(w: World, fam: Families, f: Facts)
    requires f.Named()
    ensures DecideEnroll(w, fam, f).1.None? <==>
      && !f.marker.Incomplete?
      && var c := DecideCandidate(w, f);
      c.rung == RegisterNew
      || (var a := w.parse(TrimSpace(c.agent.addr));
          a.Some? && fam.is6(a.value) && !fam.mapped(a.value) && f.publication == "served")
  {
    hide DecideCandidate, SavedReplaceIn;
  }

  lemma PlanBinds(w: World, fam: Families, f: Facts, register: Answer)
    requires f.Named() && Prints(w, fam)
    requires DecideEnroll(w, fam, f).1.None? && DecideCandidate(w, f).rung != RegisterNew
    ensures var c := DecideCandidate(w, f);
            var a := w.parse(TrimSpace(c.agent.addr));
            var act := ActOf(w, fam, DecideEnroll(w, fam, f).0, register);
            && a.Some? && fam.is6(a.value)
            && act.Done? && act.bound.rung == c.rung && act.bound.marker.addr == a.value
            && act.bound.marker.agent == c.agent.agent
            && act.bound.saved == Pinned(w, SavedReplaceIn(w, f), TrimSpace(f.saved), c.agent.agent)
            && act.bound.marker.name == FirstNonBlank(TrimDot(c.agent.fqdn), c.title)
  {
    hide DecideCandidate, SavedReplaceIn;
  }

  /** From one listing, one marker, the same names and saved agent, a plan that is not refused takes the
      forced ladder's rung; binds its address, exactly when the listing's address has no space around it;
      and records its agent, and so the same saved agent, whenever the listing or the marker has a handle. */
  lemma ProgramsAgree(w: World, fam: Families, f: Facts, register: Answer, identity: Answer)
    requires f.Named() && TrimSpace(f.saved) == f.saved && Prints(w, fam)
    requires DecideEnroll(w, fam, f).1.None? && DecideCandidate(w, f).rung != RegisterNew
    ensures var c := DecideCandidate(w, f);
            var run := RunOf(w, fam, f, register, identity);
            var act := ActOf(w, fam, DecideEnroll(w, fam, f).0, register);
            && act.Done? && act.bound.rung == c.rung
            && (run.Done? <==> AddressIsUsable(w, fam, c))
            && (run.Done? ==> run.bound.rung == act.bound.rung)
            && (run.Done? && run.bound.marker.addr == act.bound.marker.addr <==> CleanAddress(w, c))
            && (run.Done? ==> (run.bound.marker.agent == act.bound.marker.agent <==> SameHandle(c)))
            && (run.Done? && SameHandle(c) ==> run.bound.saved == act.bound.saved)
            && (run.Done? && TrimSpace(TrimDot(c.agent.fqdn)) != "" ==> run.bound.marker.name == act.bound.marker.name)
  {
    hide DecideCandidate, SavedReplaceIn, DecideEnroll, RunAgent, ActOf;
    PlannedMarkerIsWhole(w, fam, f);
    PlanBinds(w, fam, f, register);
    AgentsAgree(w, f);
  }

  predicate AddressIsUsable(w: World, fam: Families, c: Candidate) {
    w.parse(c.agent.addr).Some? && fam.is6(w.parse(c.agent.addr).value)
  }

  // ----- which rows may be bound --------------------------------------------------------------------------

  /** A row of an agent that still stands, in the listing's own columns: its state, in any case, is none or
      "active", and one of its address columns is filled. */
  predicate Stands(r: ListRow) {
    (r.state == "" || Lower(r.state) == "active") && (r.address != "" || r.addr128 != "")
  }

  /** The columns' first that is filled. */
  function AddressOf(r: ListRow): string {
    if r.address == "" then r.addr128 else r.address
  }

  function HandleOf(r: ListRow): string {
    if r.agent == "" then r.id else r.agent
  }

  /** What is bound is the row's: its address, and its handle unless that is blank and the marker has one. */
  predicate IsOf(c: Candidate, r: ListRow) {
    && c.agent.addr == AddressOf(r) && c.agent.fqdn == r.fqdn && c.agent.title == r.title
    && ((c.rung == ReuseNamed || TrimSpace(HandleOf(r)) != "") ==> c.agent.agent == HandleOf(r))
  }

  /** A name is a row's title, its handle, or the first label of its fqdn, in any case. */
  predicate Called(w: World, r: ListRow, name: string) {
    w.fold(name) in {w.fold(r.title), w.fold(HandleOf(r)), w.fold(FirstLabel(r.fqdn))}
  }

  /** A marker's own row: of its address, or of its handle when both have one. */
  predicate Owned(w: World, r: ListRow, prev: Marker) {
    || w.parse(AddressOf(r)) == Some(prev.addr)
    || (HandleOf(r) != "" && prev.agent != "" && w.fold(HandleOf(r)) == w.fold(prev.agent))
  }

  lemma ReadStands(w: World, r: ListRow, name: string, prev: Marker)
    ensures Stands(r) <==> Reusable(r)
    ensures LiveOf(r) == Live(HandleOf(r), AddressOf(r), r.fqdn, r.title, r.created)
    ensures Called(w, r, name) <==> AnswersTo(w, LiveOf(r), name)
    ensures Owned(w, r, prev) <==> IsMarked(w, LiveOf(r), prev)
  {
    hide FirstLabel;
  }

  lemma {:induction false} LiveStands(rows: seq<ListRow>, m: Live)
    ensures m in LiveIn(rows) <==> exists r <- rows :: Reusable(r) && LiveOf(r) == m
    decreases |rows|
  {
    hide LiveOf, Reusable;
    if rows != [] {
      LiveStands(rows[1..], m);
      assert rows == [rows[0]] + rows[1..];
    }
  }

  /** The agent a marker names, before it lends its handle. */
  lemma {:induction false} MarkedIsLive(w: World, live: seq<Live>, prev: Marker) returns (m: Live)
    ensures Marked(w, live, prev).None? ==> forall o <- live :: !IsMarked(w, o, prev)
    ensures Marked(w, live, prev).Some? ==> m in live && IsMarked(w, m, prev)
    ensures Marked(w, live, prev).Some? ==>
              Marked(w, live, prev).value == m.(agent := FirstNonBlank(m.agent, prev.agent))
    decreases |live|
  {
    hide IsMarked, FirstNonBlank;
    if live == [] {
      m := Live("", "", "", "", 0);
    } else if IsMarked(w, live[0], prev) {
      m := live[0];
    } else {
      m := MarkedIsLive(w, live[1..], prev);
    }
  }

  /** The first name anybody answers to. */
  lemma {:induction false} ByNameIsLive(w: World, live: seq<Live>, names: seq<string>) returns (k: nat)
    ensures ByName(w, live, names).None? ==> forall n <- names, m <- live :: !AnswersTo(w, m, n)
    ensures ByName(w, live, names).Some? ==>
              && k < |names| && ByName(w, live, names).value.1 == names[k]
              && Newest(w, live, names[k]) == Some(ByName(w, live, names).value.0)
              && forall j, m | 0 <= j < k && m in live :: !AnswersTo(w, m, names[j])
    decreases |names|
  {
    hide AnswersTo, Newest;
    k := 0;
    if names != [] {
      SomeNewest(w, live, names[0]);
      if Newest(w, live, names[0]).None? {
        k := ByNameIsLive(w, live, names[1..]);
        assert names == [names[0]] + names[1..];
        assert forall j | 0 < j < |names| :: names[j] == names[1..][j - 1];
        k := k + 1;
      }
    }
  }

  lemma NewestAnswers(w: World, live: seq<Live>, name: string, i: nat)
    requires i < |live| && IsFirstOfLatest(w, live, name, i)
    ensures AnswersTo(w, live[i], name)
  {
  }

  /** The row a name leads to: of the first name that any standing row is called by, and the newest of those. */
  ghost predicate LedTo(w: World, f: Facts, r: ListRow, k: nat)
    requires k < |f.names|
  {
    && Called(w, r, f.names[k])
    && (forall j, o | 0 <= j < k && o in f.listing && Stands(o) :: !Called(w, o, f.names[j]))
    && (forall o <- f.listing | Stands(o) && Called(w, o, f.names[k]) :: o.created <= r.created)
  }

  /** What either program takes off the listing is a row of an agent that still stands: the marker's own, or the
      newest called by the first name that is anybody's. */
  lemma TakenStands(w: World, f: Facts) returns (r: ListRow, k: nat)
    requires f.Named() && DecideCandidate(w, f).rung != RegisterNew
    ensures r in f.listing && Stands(r) && IsOf(DecideCandidate(w, f), r)
    ensures DecideCandidate(w, f).rung == RebindOwn ==> !f.explicit && Prev(f).Some? && Owned(w, r, Prev(f).value)
    ensures DecideCandidate(w, f).rung == ReuseNamed ==> k < |f.names| && LedTo(w, f, r, k)
    ensures RunName(w, f, DecideCandidate(w, f), DecideCandidate(w, f).agent)
            == if TrimDot(r.fqdn) != "" then TrimDot(r.fqdn)
               else if DecideCandidate(w, f).rung == ReuseNamed then f.names[k]
               else if TrimSpace(Prev(f).value.name) != "" then Prev(f).value.name
               else if TrimSpace(f.names[0]) != "" then f.names[0] else ""
  {
    hide Reusable, LiveOf, Stands, Called, Owned, AddressOf, HandleOf, IsMarked, AnswersTo, LedTo, Newest;
    var live, c, prev := LiveIn(f.listing), DecideCandidate(w, f), Marker(0, "", "");
    k := 0;
    var m := c.agent;
    if c.rung == RebindOwn {
      prev := Prev(f).value;
      m := MarkedIsLive(w, live, prev);
    } else {
      k := ByNameIsLive(w, live, f.names);
      var i := NewestAt(w, live, f.names[k]);
    }
    LiveStands(f.listing, m);
    r :| r in f.listing && Reusable(r) && LiveOf(r) == m;
    ReadStands(w, r, "", prev);
    if c.rung == ReuseNamed {
      NewestIsLedTo(w, f, r, k);
    }
  }

  lemma NewestIsLedTo(w: World, f: Facts, r: ListRow, k: nat)
    requires k < |f.names| && Newest(w, LiveIn(f.listing), f.names[k]) == Some(LiveOf(r))
    requires forall j, m | 0 <= j < k && m in LiveIn(f.listing) :: !AnswersTo(w, m, f.names[j])
    ensures LedTo(w, f, r, k)
  {
    hide Reusable, LiveOf, Stands, Called, Owned, AddressOf, HandleOf, IsMarked, AnswersTo, Newest, IsFirstOfLatest;
    var live, name, prev := LiveIn(f.listing), f.names[k], Marker(0, "", "");
    var i := NewestAt(w, live, name);
    NewestAnswers(w, live, name, i);
    LatestIsGreatest(w, live, name, i);
    ReadStands(w, r, name, prev);
    forall o | o in f.listing && Stands(o)
      ensures Called(w, o, name) ==> o.created <= r.created
      ensures forall j | 0 <= j < k :: !Called(w, o, f.names[j])
    {
      LiveStands(f.listing, LiveOf(o));
      ReadStands(w, o, name, prev);
      forall j | 0 <= j < k ensures !Called(w, o, f.names[j]) {
        ReadStands(w, o, f.names[j], prev);
      }
    }
  }

  /** And no such row is passed over: with one of the names on it, nothing new is registered. */
  lemma StandingIsNotPassedOver(w: World, f: Facts, r: ListRow, name: string)
    requires f.Named() && r in f.listing && Stands(r) && name in f.names && Called(w, r, name)
    ensures DecideCandidate(w, f).rung != RegisterNew
  {
    hide Reusable, LiveOf, Stands, Called, Owned, AddressOf, HandleOf, IsMarked, AnswersTo;
    var live := LiveIn(f.listing);
    ReadStands(w, r, name, Marker(0, "", ""));
    LiveStands(f.listing, LiveOf(r));
    var k := ByNameIsLive(w, live, f.names);
  }

  /** Nor is the marker's own, which is bound again unless a name was given. */
  lemma MarkedIsBoundAgain(w: World, f: Facts, r: ListRow, prev: Marker)
    requires f.Named() && !f.explicit && f.marker == Whole(prev) && r in f.listing && Stands(r) && Owned(w, r, prev)
    ensures DecideCandidate(w, f).rung == RebindOwn
  {
    hide Reusable, LiveOf, Stands, Called, Owned, AddressOf, HandleOf, IsMarked, AnswersTo;
    ReadStands(w, r, "", prev);
    LiveStands(f.listing, LiveOf(r));
    var m := MarkedIsLive(w, LiveIn(f.listing), prev);
  }

  /** A marker that is this row's: its address, and its handle and name where the row has them. */
  predicate Marks(w: World, m: Marker, r: ListRow, address: string) {
    && w.parse(address) == Some(m.addr)
    && (TrimSpace(HandleOf(r)) != "" ==> m.agent == HandleOf(r))
    && (TrimSpace(TrimDot(r.fqdn)) != "" ==> m.name == TrimDot(r.fqdn))
  }

  /** What either program binds off the listing, the forced ladder or acting on a plan, is such a row's own, whatever
      a registration answers. */
  lemma BoundStands(w: World, fam: Families, f: Facts, register: Answer, identity: Answer)
    returns (r: ListRow, k: nat)
    requires f.Named() && Prints(w, fam) && DecideCandidate(w, f).rung != RegisterNew
    ensures r in f.listing && Stands(r)
    ensures f.Lenient() == f && RunOf(w, fam, f, register, identity).Done? ==>
              Marks(w, RunOf(w, fam, f, register, identity).bound.marker, r, AddressOf(r))
    ensures DecideCandidate(w, f).rung == ReuseNamed ==> k < |f.names| && LedTo(w, f, r, k)
    ensures f.Lenient() == f && RunOf(w, fam, f, register, identity).Done? && TrimDot(r.fqdn) == "" ==>
              RunOf(w, fam, f, register, identity).bound.marker.name
              == if DecideCandidate(w, f).rung == ReuseNamed then f.names[k]
                 else if TrimSpace(Prev(f).value.name) != "" then Prev(f).value.name
                 else if TrimSpace(f.names[0]) != "" then f.names[0] else ""
    ensures DecideEnroll(w, fam, f).1.None? ==>
              var act := ActOf(w, fam, DecideEnroll(w, fam, f).0, register);
              act.Done? && Marks(w, act.bound.marker, r, TrimSpace(AddressOf(r)))
  {
    hide DecideCandidate, DecideEnroll, ActOf, SavedReplaceIn, Stands, Prints, SavedAfter, AddressOf, HandleOf, TrimDot;
    hide RunName, RunAgent, LedTo;
    r, k := TakenStands(w, f);
    AgentsAgree(w, f);
    if DecideEnroll(w, fam, f).1.None? {
      PlanBinds(w, fam, f, register);
    }
  }

  // ----- the saved agent ------------------------------------------------------------------------------------

  /** The listing has the agent that is saved: a row with a name or an address that is so called, at that address or
      of that handle, in any state and any case. */
  predicate Lists(w: World, r: ListRow, saved: string) {
    var c := Choice(if r.title == "" then HandleOf(r) else r.title, AddressOf(r), HandleOf(r));
    (c.name != "" || c.addr != "") && (Typed(w, c, saved) || Alike(w, c, saved))
  }

  /** It names the identity the marker records, by its handle in any case or by its address. */
  predicate NamesMarked(w: World, prev: Marker, saved: string) {
    (prev.agent != "" && w.fold(saved) == w.fold(prev.agent)) || w.parse(saved) == Some(prev.addr)
  }

  lemma {:induction false} GoneExactly(w: World, listing: seq<ListRow>, saved: string)
    requires saved != "" && Trimmed(saved)
    ensures SavedGone(w, listing, saved) <==> forall r <- listing :: !Lists(w, r, saved)
    decreases |listing|
  {
    hide Typed, Alike, Matches;
    if listing != [] {
      var r := listing[0];
      var c := Choice(if r.title == "" then HandleOf(r) else r.title, AddressOf(r), HandleOf(r));
      GoneExactly(w, listing[1..], saved);
      TypedOrAlike(w, c, saved);
      assert listing == [r] + listing[1..];
      var first, rest := if c.name == "" && c.addr == "" then [] else [c], ChoicesIn(listing[1..]);
      assert ChoicesIn(listing) == first + rest;
      assert (forall d <- first + rest :: !Matches(w, d, saved))
             <==> (forall d <- first :: !Matches(w, d, saved)) && (forall d <- rest :: !Matches(w, d, saved));
      assert (forall d <- first :: !Matches(w, d, saved)) <==> !Lists(w, r, saved) by {
        assert c.name != "" || c.addr != "" ==> c in first;
      }
    }
  }

  /** A person's saved agent stays while the account lists it and it is not the one bound before; otherwise it becomes
      the agent bound now, when that has a handle and is not the one saved already. */
  lemma SavedExactly(w: World, fam: Families, f: Facts, register: Answer, identity: Answer)
    requires f.Named() && TrimSpace(f.saved) == f.saved && f.Lenient() == f
    requires RunOf(w, fam, f, register, identity).Done?
    ensures var (b, prev) := (RunOf(w, fam, f, register, identity).bound, Prev(f));
            var stays := || b.marker.agent == "" || w.fold(f.saved) == w.fold(b.marker.agent)
                         || (f.saved != "" && (prev.Some? ==> !NamesMarked(w, prev.value, f.saved))
                             && exists r <- f.listing :: Lists(w, r, f.saved));
            b.saved == if stays then f.saved else TrimSpace(b.marker.agent)
  {
    hide SavedGone, Lists, ChosenBy;
    if f.saved != "" {
      TrimSpaceTrims(f.saved);
      GoneExactly(w, f.listing, f.saved);
    }
  }

  /** A service's own stays whenever it has one that is not the identity bound before, listed or not. */
  lemma ServiceSavedExactly(w: World, fam: Families, f: Facts, t: Target, register: Answer, identity: Answer)
    requires f.Named() && TrimSpace(f.saved) == f.saved && f.Lenient() == f && t.Service?
    requires RunFor(w, fam, f, t, register, identity).Done?
    ensures var (b, prev) := (RunFor(w, fam, f, t, register, identity).bound, Prev(f));
            b.saved == if TrimSpace(b.marker.agent) != ""
                          && (f.saved == "" || (prev.Some? && NamesMarked(w, prev.value, f.saved)))
                       then TrimSpace(b.marker.agent) else f.saved
  {
    hide ChosenBy;
  }

  /** With nothing on the listing to bind, what a registration answered is bound as it stands: its address, and its
      handle and name where it gives them; else the label and the first name asked for. */
  lemma RegisteredIsBound(w: World, fam: Families, f: Facts, m: Live, identity: Answer)
    requires f.Named() && f.Lenient() == f && DecideCandidate(w, f).rung == RegisterNew && m.addr != ""
    ensures var run := RunOf(w, fam, f, Some(m), identity);
            && (run.Done? <==> w.parse(m.addr).Some? && fam.is6(w.parse(m.addr).value))
            && (run.Done? ==>
                  run.bound.rung == RegisterNew &&
                  run.bound.marker == Marker(w.parse(m.addr).value,
                                             if m.fqdn in {"", "."} then f.names[0] else TrimDot(m.fqdn),
                                             if m.agent == "" then m.title else m.agent))
  {
    hide DecideCandidate, SavedAfter;
    if m.fqdn != "" && TrimDot(m.fqdn) == "" {
      assert m.fqdn == [m.fqdn[0]];
    }
  }

  // ----- the row passed over --------------------------------------------------------------------------------

  /** A revoked agent of this name is not bound again: a new one is registered. */
  lemma RevokedIsNotReused()
    ensures var r := ListRow("revoked", "::", "", "agent-1", "", "", "h", 5);
            var f := Facts([r], NoMarker, "", ["h"], false, "", "", SERVED);
            f.Named() && DecideCandidate(PlainWorld(), f).rung == RegisterNew
  {
    var r := ListRow("revoked", "::", "", "agent-1", "", "", "h", 5);
    var f := Facts([r], NoMarker, "", ["h"], false, "", "", SERVED);
    hide DecideCandidate, LedTo, IsOf, RunName, Prev, TrimDot, TrimSpace;
    assert Lower("revoked")[0] == 'r';
    if DecideCandidate(PlainWorld(), f).rung != RegisterNew {
      var taken, k := TakenStands(PlainWorld(), f);
    }
  }

  // ----- the two listings on which they part -----------------------------------------------------------

  /** One agent listed, no marker, nothing saved; addresses are a colon for each of theirs and one more. */
  function OneRow(agent: string, addr: string): Facts {
    Facts([ListRow("", addr, "", agent, "", "", "h", 1)], NoMarker, "", ["h"], false, "", "", SERVED)
  }

  function PlainWorld(): World {
    World(s => if s != "" && s[0] == ':' then Some(|s| - 1) else None, s => s)
  }

  function PlainFamilies(): Families {
    Families(a => true, a => false, (a: Addr) => seq(a + 1, i => ':'))
  }

  /** The name's one agent is reused, and its row keeps the handle and the address it gives. */
  lemma OneRowIsReused(agent: string, addr: string)
    requires addr != ""
    ensures var (f, c) := (OneRow(agent, addr), Candidate(ReuseNamed, Live(agent, addr, "", "h", 1), "h"));
            f.Named() && DecideCandidate(PlainWorld(), f) == c && SavedReplaceIn(PlainWorld(), f) && TrimSpace("") == ""
  {
    hide SavedIsPrev, SavedGone;
    var (w, f, m) := (PlainWorld(), OneRow(agent, addr), Live(agent, addr, "", "h", 1));
    assert TrimSpace("h") == "h" by {
      TrimmedStays("h");
    }
    assert LiveIn(f.listing) == [m] by {
      assert Reusable(f.listing[0]) && LiveOf(f.listing[0]) == m && f.listing[1..] == [];
    }
    assert Newest(w, [m], "h") == Some(m) by {
      assert [m][..0] == [] && AnswersTo(w, m, "h");
    }
    assert ByName(w, [m], f.names) == Some((m, "h"));
  }

  lemma PlainPrints()
    ensures Prints(PlainWorld(), PlainFamilies())
  {
  }

  lemma SpacesTrimmed()
    ensures TrimSpace(" ::") == "::" && TrimSpace("::") == "::"
  {
    TrimmedStays("::");
    assert TrimLeft(" ::") == TrimLeft("::");
  }

  lemma OneRowIsPlanned(agent: string, addr: string)
    requires addr in {"::", " ::"}
    ensures var (w, fam, f) := (PlainWorld(), PlainFamilies(), OneRow(agent, addr));
            f.Named() && Prints(w, fam) && DecideEnroll(w, fam, f).1.None? && TrimSpace(f.saved) == f.saved
  {
    hide DecideCandidate, SavedReplaceIn, TrimSpace, TrimDot, Prints;
    OneRowIsReused(agent, addr);
    PlainPrints();
    SpacesTrimmed();
  }

  /** An address listed with a space before it: the preview's plan goes ahead, and the ladder stops. */
  lemma SpacedAddressSplits()
    ensures var (w, fam, f) := (PlainWorld(), PlainFamilies(), OneRow("box", " ::"));
            && f.Named() && Prints(w, fam) && DecideEnroll(w, fam, f).1.None?
            && ActOf(w, fam, DecideEnroll(w, fam, f).0, None).Done? && RunOf(w, fam, f, None, None).Stopped?
  {
    hide DecideCandidate, DecideEnroll, RunOf, ActOf, Prints;
    OneRowIsReused("box", " ::");
    OneRowIsPlanned("box", " ::");
    ProgramsAgree(PlainWorld(), PlainFamilies(), OneRow("box", " ::"), None, None);
  }

  /** A row with a label and no handle: the ladder records the label for an agent, acting on the plan nothing. */
  lemma MissingHandleSplits()
    ensures var (w, fam, f) := (PlainWorld(), PlainFamilies(), OneRow("", "::"));
            && f.Named() && Prints(w, fam) && DecideEnroll(w, fam, f).1.None?
            && var (run, act) := (RunOf(w, fam, f, None, None), ActOf(w, fam, DecideEnroll(w, fam, f).0, None));
            run.Done? && act.Done? && run.bound.marker.agent != act.bound.marker.agent
  {
    hide DecideCandidate, DecideEnroll, RunOf, ActOf, Prints;
    OneRowIsReused("", "::");
    OneRowIsPlanned("", "::");
    ProgramsAgree(PlainWorld(), PlainFamilies(), OneRow("", "::"), None, None);
  }

  /** A rebound agent's handle is never blank unless empty, and its label falls back on the marker's. */
  lemma CandidateLabels(w: World, f: Facts)
    requires f.Named()
    ensures var c := DecideCandidate(w, f);
            && (c.rung == RebindOwn ==>
                  Prev(f).Some? && c.agent.agent == FirstNonBlank(c.agent.agent, Prev(f).value.agent))
            && (c.rung == RebindOwn && c.agent.agent == "" ==> TrimSpace(Prev(f).value.agent) == "")
            && (c.rung == ReuseNamed ==> ByName(w, LiveIn(f.listing), f.names).Some?)
            && (c.title == "" || TrimSpace(c.title) != "" || c.rung == RegisterNew)
  {
    if !f.explicit && Prev(f).Some? {
      MarkedHandle(w, LiveIn(f.listing), Prev(f).value);
    }
  }

  lemma {:induction false} MarkedHandle(w: World, live: seq<Live>, prev: Marker)
    ensures Marked(w, live, prev).Some? ==>
      var m := Marked(w, live, prev).value;
      m.agent == FirstNonBlank(m.agent, prev.agent) && (m.agent == "" ==> TrimSpace(prev.agent) == "")
    decreases |live|
  {
    if live != [] && !IsMarked(w, live[0], prev) {
      MarkedHandle(w, live[1..], prev);
    }
  }

  /** A plan to register, and the ladder at its last rung, do the same with a registration that answered;
      when it did not, the plan stops, and the ladder goes on to the key's own identity. */
  lemma NewIdentitiesAgree(w: World, fam: Families, f: Facts, register: Answer, identity: Answer)
    requires f.Named() && TrimSpace(f.saved) == f.saved
    requires DecideEnroll(w, fam, f).1.None? && DecideCandidate(w, f).rung == RegisterNew
    ensures var run := RunOf(w, fam, f, register, identity);
            var act := ActOf(w, fam, DecideEnroll(w, fam, f).0, register);
            if register.Some? && register.value.addr != "" then run == act
            else act == Stopped && run == RunOf(w, fam, f, None, identity)
  {
    hide SavedReplaceIn, SavedIsPrev, SavedGone, Pinned, EnvelopeName, EnvelopeAgent;
    PlannedMarkerIsWhole(w, fam, f);
    NewCandidate(w, f);
  }

  lemma NewCandidate(w: World, f: Facts)
    requires f.Named() && DecideCandidate(w, f).rung == RegisterNew
    ensures DecideCandidate(w, f).title == f.names[0]
  {
  }

  // ----- the confirm ------------------------------------------------------------------------------------------

  function RungText(r: Rung): string {
    match r case RebindOwn => "rebind_own" case ReuseNamed => "reuse_named" case RegisterNew => "register_new"
  }

  function BoolText(b: bool): string {
    if b then "true" else "false"
  }

  /** A plan's thirteen fields as they are compared. */
  function Fields(p: Plan): (f: seq<(string, string)>)
    ensures |f| == 13
  {
    [("outcome", RungText(p.outcome)), ("agent", p.agent), ("address", p.address), ("fqdn", p.fqdn),
     ("name", p.rawLabel), ("account", p.account), ("key", p.keyFP), ("served", p.served),
     ("saved_replace", BoolText(p.savedReplace)),
     ("previous_address", p.previousAddr), ("previous_agent", p.previousAgent), ("saved_agent", p.saved),
     ("explicit_name", p.explicitName)]
  }

  /** Each name is of one field only. */
  lemma NamesTell(was: Plan, now: Plan, i: nat, k: nat)
    requires i < 13 && k < 13 && Fields(was)[i].0 == Fields(now)[k].0
    ensures i == k
  {
    var (a, b) := (Fields(was)[i].0, Fields(now)[k].0);
    assert |a| == |b| && a[0] == b[0] && a[1] == b[1];
  }

  /** The names are of the fields in which the plans differ. */
  predicate TellsApart(was: Plan, now: Plan, changed: seq<string>) {
    && ("outcome" in changed <==> was.outcome != now.outcome) && ("agent" in changed <==> was.agent != now.agent)
    && ("address" in changed <==> was.address != now.address) && ("fqdn" in changed <==> was.fqdn != now.fqdn)
    && ("name" in changed <==> was.rawLabel != now.rawLabel) && ("account" in changed <==> was.account != now.account)
    && ("key" in changed <==> was.keyFP != now.keyFP) && ("served" in changed <==> was.served != now.served)
    && ("saved_replace" in changed <==> was.savedReplace != now.savedReplace)
    && ("previous_address" in changed <==> was.previousAddr != now.previousAddr)
    && ("previous_agent" in changed <==> was.previousAgent != now.previousAgent)
    && ("saved_agent" in changed <==> was.saved != now.saved)
    && ("explicit_name" in changed <==> was.explicitName != now.explicitName)
  }

  lemma NamedExactly(was: Plan, now: Plan, changed: seq<string>)
    requires forall i | 0 <= i < 13 :: Fields(was)[i] != Fields(now)[i] ==> Fields(now)[i].0 in changed
    requires forall name <- changed ::
               exists i | 0 <= i < 13 :: Fields(now)[i].0 == name && Fields(was)[i] != Fields(now)[i]
    ensures forall k | 0 <= k < 13 :: Fields(now)[k].0 in changed <==> Fields(was)[k] != Fields(now)[k]
  {
    hide Fields;
    forall k | 0 <= k < 13 ensures Fields(now)[k].0 in changed <==> Fields(was)[k] != Fields(now)[k] {
      if Fields(now)[k].0 in changed {
        var i :| 0 <= i < 13 && Fields(now)[i].0 == Fields(now)[k].0 && Fields(was)[i] != Fields(now)[i];
        NamesTell(now, now, i, k);
      }
    }
  }

  lemma TextsTell(r: Rung, q: Rung, b: bool, c: bool)
    ensures RungText(r) == RungText(q) <==> r == q
    ensures BoolText(b) == BoolText(c) <==> b == c
  {
    assert |RungText(r)| == if r == RebindOwn then 10 else if r == ReuseNamed then 11 else 12;
    assert |RungText(q)| == if q == RebindOwn then 10 else if q == ReuseNamed then 11 else 12;
    assert |BoolText(b)| == (if b then 4 else 5) && |BoolText(c)| == if c then 4 else 5;
  }

  lemma ChangesTell(was: Plan, now: Plan, changed: seq<string>)
    requires forall k | 0 <= k < 13 :: Fields(now)[k].0 in changed <==> Fields(was)[k] != Fields(now)[k]
    ensures TellsApart(was, now, changed)
  {
    hide RungText, BoolText;
    TextsTell(was.outcome, now.outcome, was.savedReplace, now.savedReplace);
    var (a, b) := (Fields(was), Fields(now));
    assert (b[0].0 in changed <==> a[0] != b[0]) && (b[1].0 in changed <==> a[1] != b[1]);
    assert (b[2].0 in changed <==> a[2] != b[2]) && (b[3].0 in changed <==> a[3] != b[3]);
    assert (b[4].0 in changed <==> a[4] != b[4]) && (b[5].0 in changed <==> a[5] != b[5]);
    assert (b[6].0 in changed <==> a[6] != b[6]) && (b[7].0 in changed <==> a[7] != b[7]);
    assert (b[8].0 in changed <==> a[8] != b[8]) && (b[9].0 in changed <==> a[9] != b[9]);
    assert (b[10].0 in changed <==> a[10] != b[10]) && (b[11].0 in changed <==> a[11] != b[11]);
    assert b[12].0 in changed <==> a[12] != b[12];
  }

  /** The fields that differ, by name, in the order they are compared. */
  method PlanDiff(was: Plan, now: Plan) returns (changed: seq<string>)
    ensures forall i | 0 <= i < 13 :: Fields(was)[i] != Fields(now)[i] ==> Fields(now)[i].0 in changed
    ensures forall name <- changed ::
              exists i | 0 <= i < 13 :: Fields(now)[i].0 == name && Fields(was)[i] != Fields(now)[i]
    ensures changed == [] <==> was == now
    ensures TellsApart(was, now, changed)
  {
    hide Fields, TellsApart, RungText, BoolText;
    var a, b := Fields(was), Fields(now);
    changed := [];
    for k := 0 to 13
      invariant forall i | 0 <= i < k :: a[i] != b[i] ==> b[i].0 in changed
      invariant forall name <- changed :: exists i | 0 <= i < 13 :: b[i].0 == name && a[i] != b[i]
      invariant changed == [] <==> forall i | 0 <= i < k :: a[i] == b[i]
    {
      if a[k] != b[k] {
        changed := changed + [b[k].0];
      }
    }
    NamedExactly(was, now, changed);
    ChangesTell(was, now, changed);
    if forall i | 0 <= i < 13 :: a[i] == b[i] {
      FieldsTell(was, now);
    }
  }

  lemma FieldsTell(was: Plan, now: Plan)
    requires forall i | 0 <= i < 13 :: Fields(was)[i] == Fields(now)[i]
    ensures was == now
  {
    var a, b := Fields(was), Fields(now);
    assert a[0] == b[0] && a[1] == b[1] && a[2] == b[2] && a[3] == b[3] && a[4] == b[4] && a[5] == b[5] && a[6] == b[6];
    assert a[7] == b[7] && a[8] == b[8] && a[9] == b[9] && a[10] == b[10] && a[11] == b[11] && a[12] == b[12];
    assert RungText(was.outcome) == RungText(now.outcome) && BoolText(was.savedReplace) == BoolText(now.savedReplace);
  }

  const MAX_TOKEN := 4096

  /** A plan's token and back; one longer than this is refused unread. */
  datatype Codec = Codec(encode: Plan -> string, decode: string -> Option<Plan>) {
    ghost predicate Valid() {
      && (forall p: Plan :: |encode(p)| <= MAX_TOKEN ==> decode(encode(p)) == Some(p))
      && (forall t: string :: |t| > MAX_TOKEN ==> decode(t) == None)
    }
  }

  datatype Preview = Token(text: string) | TooLarge | Refused

  /** Reading the facts again, for a name or for none. */
  type Gather = string -> Option<Facts>

  ghost predicate Gathers(gather: Gather) {
    forall n: string :: gather(n).Some? ==>
      && gather(n).value.Named() && TrimSpace(gather(n).value.saved) == gather(n).value.saved
      && gather(n).value.explicit == (n != "") && (n != "" ==> gather(n).value.names == [n])
  }

  datatype Confirmed = BadToken | CannotTell | Changed | NotNow(why: Refusal) | Acted(result: Result)

  /** The plan the token names, the name it was made with, and the plan those facts make now. */
  ghost predicate Agrees(w: World, fam: Families, codec: Codec, gather: Gather, name: string, token: string)
    requires Gathers(gather)
  {
    var want := codec.decode(token);
    && want.Some?
    && var f := gather(if name == "" then want.value.explicitName else name);
    && f.Some? && DecideEnroll(w, fam, f.value) == (want.value, None)
  }

  /** Decides again from facts read again, and acts exactly when that gives the token's plan in every field
      and the plan can go ahead. */
  method RunConfirm(w: World, fam: Families, codec: Codec, gather: Gather, device: Device, name: string,
                    token: string, register: Answer)
    returns (r: Confirmed)
    requires Gathers(gather)
    requires forall n: string :: gather(n).Some? ==> gather(n).value.saved == device.saved
    modifies device`marker, device`saved
    ensures r.Acted? <==> Agrees(w, fam, codec, gather, name, token)
    ensures r.Acted? ==> r.result == ActOf(w, fam, codec.decode(token).value, register)
    ensures !r.Acted? || r.result.Stopped? ==> device.marker == old(device.marker) && device.saved == old(device.saved)
  {
    var want := codec.decode(token);
    if want.None? {
      return BadToken;
    }
    var f := gather(if name == "" then want.value.explicitName else name);
    if f.None? {
      return CannotTell;
    }
    var (now, refusal) := DecideEnroll(w, fam, f.value);
    var changed := PlanDiff(want.value, now);
    if changed != [] {
      return Changed;
    }
    if refusal.Some? {
      return NotNow(refusal.value);
    }
    PlanKeepsSaved(w, fam, f.value);
    var result := device.ActEnroll(w, fam, now, register);
    return Acted(result);
  }

  lemma PlanKeepsSaved(w: World, fam: Families, f: Facts)
    requires f.Named() && TrimSpace(f.saved) == f.saved && DecideEnroll(w, fam, f).1.None?
    ensures DecideEnroll(w, fam, f).0.saved == f.saved
    ensures DecideEnroll(w, fam, f).0.explicitName == if f.explicit then f.names[0] else ""
  {
    hide DecideCandidate, SavedReplaceIn;
  }

  /** While nothing changes, a plan that can go ahead and fits in a token is confirmed, with the name it was
      made with or with none. */
  lemma PreviewThenConfirm(w: World, fam: Families, codec: Codec, gather: Gather, name: string, given: string)
    requires Gathers(gather) && codec.Valid() && given in {name, ""} && Plans(w, fam, codec, gather, name)
    ensures Agrees(w, fam, codec, gather, given, codec.encode(DecideEnroll(w, fam, gather(name).value).0))
  {
    PlanKeepsSaved(w, fam, gather(name).value);
  }

  /** The facts are read, and decide on a plan that can go ahead and fits in a token. */
  predicate Plans(w: World, fam: Families, codec: Codec, gather: Gather, name: string)
    requires gather(name).Some? ==> gather(name).value.Named()
  {
    && gather(name).Some? && DecideEnroll(w, fam, gather(name).value).1.None?
    && |codec.encode(DecideEnroll(w, fam, gather(name).value).0)| <= MAX_TOKEN
  }

  /** A preview gives a token exactly when there is a plan that can go ahead, and as long as nothing changes
      a confirm of that token acts, with the preview's name or with none. */
  method RunPreview(w: World, fam: Families, codec: Codec, gather: Gather, name: string) returns (v: Preview)
    requires Gathers(gather)
    ensures v.Token? <==> Plans(w, fam, codec, gather, name)
    ensures v.Refused? <==> gather(name).None? || DecideEnroll(w, fam, gather(name).value).1.Some?
    ensures v.Token? && codec.Valid() ==> forall given | given in {name, ""} ::
              Agrees(w, fam, codec, gather, given, v.text)
  {
    var f := gather(name);
    if f.None? {
      return Refused;
    }
    var (p, refusal) := DecideEnroll(w, fam, f.value);
    if refusal.Some? {
      return Refused;
    }
    if |codec.encode(p)| > MAX_TOKEN {
      return TooLarge;
    }
    if codec.Valid() {
      PreviewThenConfirm(w, fam, codec, gather, name, name);
      PreviewThenConfirm(w, fam, codec, gather, name, "");
    }
    return Token(codec.encode(p));
  }
}
