/** The change stream behind a watch: snapshots of a book, and what differs between two of them. */
module Watching {
  import opened Wrappers
  import opened AlertModel
  import opened Judging

  datatype Disposition = WasSevered | WasHeld | Noticed

  /** One alert as served with a change. */
  datatype Alert = Alert(ref: string, title: string, score: Option<real>, lane: string, interrupt: Token,
                         disposition: Disposition, ack: string, assignee: string)
  {
    predicate Held() {
      ack != "" || assignee != ""
    }
  }

  /** What a watch remembers of a row between polls. */
  datatype Watched = Watched(lane: string, state: string, holder: string, disposition: Disposition, alert: Alert)

  datatype Snapshot = Unfilled | Filled(rows: map<string, Watched>)

  datatype Kind = Opened | Resolved | Promoted | HeldNow | Released | SeveredNow

  datatype Change = Change(kind: Kind, ref: string, lane: string, was: string, now: string, alert: Alert)

  /** How a book is read into a snapshot: the address parser, the sensor's own verdict on a row, and the bound. */
  datatype Options = Options(parse: Parse, sensorHeld: Row -> bool, staleAckNs: Millis)

  function DispositionOf(o: Options, b: Book, r: Row): Disposition {
    if SeveredAfter(o.parse, b.trail, r, b.nowNs).Some? then WasSevered
    else if o.sensorHeld(r) then WasHeld else Noticed
  }

  function AlertOf(o: Options, b: Book, r: Row): Alert {
    Alert(r.Ref(), r.title, r.score, r.lane,
          Judge(o.parse, r, b.endpoint(r), b.trail, b.nowNs, RenderBound(o.staleAckNs)).token,
          DispositionOf(o, b, r), r.ack, r.assignee)
  }

  function WatchedOf(o: Options, b: Book, r: Row): Watched {
    Watched(r.lane, r.state, r.Holder(), DispositionOf(o, b, r), AlertOf(o, b, r))
  }

  /** The last row of each ref, with its own alert. */
  function SnapRows(o: Options, b: Book, rows: seq<Row>): map<string, Watched> {
    if rows == [] then map[]
    else
      var r := rows[|rows| - 1];
      SnapRows(o, b, rows[..|rows| - 1])[r.Ref() := WatchedOf(o, b, r)]
  }

  /** The document's alerts by ref: the last one of each. */
  function AlertRows(o: Options, b: Book, rows: seq<Row>): map<string, Alert> {
    if rows == [] then map[]
    else
      var r := rows[|rows| - 1];
      AlertRows(o, b, rows[..|rows| - 1])[r.Ref() := AlertOf(o, b, r)]
  }

  /** The rows by ref, each taking the alert filed under its ref. */
  function FiledRows(o: Options, b: Book, rows: seq<Row>, byRef: map<string, Alert>): map<string, Watched>
    requires forall r <- rows :: r.Ref() in byRef
  {
    if rows == [] then map[]
    else
      var r := rows[|rows| - 1];
      FiledRows(o, b, rows[..|rows| - 1], byRef)[
        r.Ref() := Watched(r.lane, r.state, r.Holder(), DispositionOf(o, b, r), byRef[r.Ref()])]
  }

  lemma {:induction false} AlertsFiled(o: Options, b: Book, rows: seq<Row>)
    ensures forall r <- rows :: r.Ref() in AlertRows(o, b, rows)
    ensures AlertRows(o, b, rows).Keys == SnapRows(o, b, rows).Keys
    ensures forall ref <- SnapRows(o, b, rows) :: AlertRows(o, b, rows)[ref] == SnapRows(o, b, rows)[ref].alert
    decreases |rows|
  {
    if rows != [] {
      AlertsFiled(o, b, rows[..|rows| - 1]);
      assert rows == rows[..|rows| - 1] + [rows[|rows| - 1]];
    }
  }

  lemma {:induction false} RowsFiled(o: Options, b: Book, rows: seq<Row>, byRef: map<string, Alert>)
    requires forall r <- rows :: r.Ref() in byRef
    ensures FiledRows(o, b, rows, byRef).Keys == SnapRows(o, b, rows).Keys <= byRef.Keys
    ensures forall ref <- SnapRows(o, b, rows) ::
              FiledRows(o, b, rows, byRef)[ref] == SnapRows(o, b, rows)[ref].(alert := byRef[ref])
    decreases |rows|
  {
    if rows != [] {
      RowsFiled(o, b, rows[..|rows| - 1], byRef);
      assert rows[|rows| - 1] in rows;
    }
  }

  method FileAlerts(o: Options, b: Book) returns (byRef: map<string, Alert>)
    ensures byRef == AlertRows(o, b, b.rows)
  {
    hide AlertOf;
    byRef := map[];
    for i := 0 to |b.rows|
      invariant byRef == AlertRows(o, b, b.rows[..i])
    {
      assert b.rows[..i + 1][..i] == b.rows[..i];
      byRef := byRef[b.rows[i].Ref() := AlertOf(o, b, b.rows[i])];
    }
    assert b.rows[..|b.rows|] == b.rows;
  }

  method FileRowsByRef(o: Options, b: Book, byRef: map<string, Alert>) returns (rows: map<string, Watched>)
    requires forall r <- b.rows :: r.Ref() in byRef
    ensures rows == FiledRows(o, b, b.rows, byRef)
  {
    hide DispositionOf;
    rows := map[];
    for i := 0 to |b.rows|
      invariant rows == FiledRows(o, b, b.rows[..i], byRef)
    {
      assert b.rows[..i + 1][..i] == b.rows[..i];
      var r := b.rows[i];
      rows := rows[r.Ref() := Watched(r.lane, r.state, r.Holder(), DispositionOf(o, b, r), byRef[r.Ref()])];
    }
    assert b.rows[..|b.rows|] == b.rows;
  }

  /** Two passes: the document's alerts by ref, then the rows, each taking the alert filed under its ref. */
  method Snap(o: Options, b: Book) returns (s: Snapshot)
    ensures s == Filled(SnapRows(o, b, b.rows))
  {
    hide AlertRows, FiledRows, SnapRows;
    var byRef := FileAlerts(o, b);
    AlertsFiled(o, b, b.rows);
    var rows := FileRowsByRef(o, b, byRef);
    RowsFiled(o, b, b.rows, byRef);
    assert rows == SnapRows(o, b, b.rows);
    return Filled(rows);
  }

  /** What is remembered under a ref is its last row's: the lane, the state and the holder as they stand there, a
      disposition that says severed exactly when it is contained and otherwise what the sensor did, and an alert
      of the same row that says page exactly when the row pages. */
  lemma {:induction false} SnapTells(o: Options, b: Book, rows: seq<Row>, i: nat)
    requires i < |rows| && forall j | i < j < |rows| :: rows[j].Ref() != rows[i].Ref()
    ensures var (r, snap) := (rows[i], SnapRows(o, b, rows));
            && r.Ref() in snap
            && var w := snap[r.Ref()];
            && w.lane == r.lane && w.state == r.state && w.holder == (if r.assignee == "" then r.ack else r.assignee)
            && (w.disposition == WasSevered <==> Contained(o.parse, b.trail, r, b.nowNs))
            && (w.disposition == WasHeld ==> o.sensorHeld(r)) && (w.disposition == Noticed ==> !o.sensorHeld(r))
            && w.alert.ref == r.Ref() && w.alert.title == r.title && w.alert.score == r.score
            && w.alert.lane == r.lane && w.alert.ack == r.ack && w.alert.assignee == r.assignee
            && w.alert.disposition == w.disposition
            && (w.alert.interrupt == Page <==>
                  Pages(o.parse, b, r, if o.staleAckNs <= 0 then 86_400_000_000_000 else o.staleAckNs))
    decreases |rows|
  {
    hide Contained, SeveredAfter, Judge;
    if i < |rows| - 1 {
      SnapTells(o, b, rows[..|rows| - 1], i);
    } else {
      ContainedExactly(o.parse, b.trail, rows[i], b.nowNs);
    }
  }

  /** And nothing else is remembered. */
  lemma {:induction false} SnapKeys(o: Options, b: Book, rows: seq<Row>, ref: string)
    ensures ref in SnapRows(o, b, rows) <==> exists r <- rows :: r.Ref() == ref
    decreases |rows|
  {
    hide WatchedOf;
    if rows != [] {
      SnapKeys(o, b, rows[..|rows| - 1], ref);
      assert rows == rows[..|rows| - 1] + [rows[|rows| - 1]];
    }
  }

  // ----- refs in order ------------------------------------------------------------------------

  predicate Before(a: string, b: string) {
    if b == [] then false
    else if a == [] then true
    else a[0] < b[0] || (a[0] == b[0] && Before(a[1..], b[1..]))
  }

  lemma {:induction false} BeforeIsTotal(a: string, b: string)
    ensures Before(a, b) || Before(b, a) || a == b
    ensures !(Before(a, b) && Before(b, a)) && !Before(a, a)
    decreases |a|
  {
    if a != [] {
      BeforeIsTotal(a[1..], a[1..]);
      if b != [] {
        BeforeIsTotal(a[1..], b[1..]);
        if a[0] == b[0] && a[1..] == b[1..] {
          assert a == [a[0]] + a[1..] && b == [b[0]] + b[1..];
        }
      }
    }
  }

  lemma {:induction false} BeforeIsTransitive(a: string, b: string, c: string)
    requires Before(a, b) && Before(b, c)
    ensures Before(a, c)
    decreases |a|
  {
    if a != [] && a[0] == b[0] && b[0] == c[0] {
      BeforeIsTransitive(a[1..], b[1..], c[1..]);
    }
  }

  ghost predicate Ascending(refs: seq<string>) {
    forall i, j | 0 <= i < j < |refs| :: Before(refs[i], refs[j])
  }

  /** These keys, each once, in order. */
  ghost predicate Lists(refs: seq<string>, keys: set<string>) {
    Ascending(refs) && forall ref :: ref in refs <==> ref in keys
  }

  lemma {:induction false} OneListing(a: seq<string>, b: seq<string>, keys: set<string>)
    requires Lists(a, keys) && Lists(b, keys)
    ensures a == b
    decreases |a|
  {
    if b != [] {
      HasKey(b, keys);
    }
    if a != [] {
      HasKey(a, keys);
      assert a[0] in keys && a[0] in b;
      assert b[0] in keys && b[0] in a;
      var i :| 0 <= i < |b| && b[i] == a[0];
      var j :| 0 <= j < |a| && a[j] == b[0];
      BeforeIsTotal(a[0], b[0]);
      assert a[0] == b[0];
      RestLists(a, keys);
      RestLists(b, keys);
      OneListing(a[1..], b[1..], keys - {a[0]});
      assert a == [a[0]] + a[1..] && b == [b[0]] + b[1..];
    }
  }

  lemma HasKey(a: seq<string>, keys: set<string>)
    requires Lists(a, keys) && a != []
    ensures keys != {}
  {
    assert a[0] in keys;
  }

  lemma RestLists(a: seq<string>, keys: set<string>)
    requires Lists(a, keys) && a != []
    ensures Lists(a[1..], keys - {a[0]})
  {
    BeforeIsTotal(a[0], a[0]);
    forall ref ensures ref in a[1..] <==> ref in keys - {a[0]} {
      assert a == [a[0]] + a[1..];
      if ref in a[1..] {
        var i :| 0 <= i < |a[1..]| && a[1..][i] == ref;
        assert Before(a[0], a[i + 1]);
      }
    }
    assert forall i, j | 0 <= i < j < |a[1..]| :: Before(a[i + 1], a[j + 1]) ==> Before(a[1..][i], a[1..][j]);
  }

  function InsertRef(x: string, refs: seq<string>): seq<string> {
    if refs == [] || Before(x, refs[0]) then [x] + refs else [refs[0]] + InsertRef(x, refs[1..])
  }

  function SortRefs(refs: seq<string>): seq<string> {
    if refs == [] then [] else InsertRef(refs[0], SortRefs(refs[1..]))
  }

  lemma {:induction false} InsertLists(x: string, refs: seq<string>, keys: set<string>)
    requires Lists(refs, keys) && x !in keys
    ensures Lists(InsertRef(x, refs), keys + {x})
    decreases |refs|
  {
    if refs == [] {
      assert InsertRef(x, refs) == [x];
    } else if Before(x, refs[0]) {
      forall j | 0 <= j < |refs| ensures Before(x, refs[j]) {
        if j > 0 {
          BeforeIsTransitive(x, refs[0], refs[j]);
        }
      }
      ConsLists(x, refs, keys);
    } else {
      assert refs[0] in keys;
      BeforeIsTotal(x, refs[0]);
      RestLists(refs, keys);
      InsertLists(x, refs[1..], keys - {refs[0]});
      var rest := InsertRef(x, refs[1..]);
      forall j | 0 <= j < |rest| ensures Before(refs[0], rest[j]) {
        assert rest[j] in (keys - {refs[0]}) + {x};
        if rest[j] != x {
          var i :| 0 <= i < |refs| && refs[i] == rest[j];
          assert i > 0;
        }
      }
      assert (keys - {refs[0]}) + {x} + {refs[0]} == keys + {x};
      ConsLists(refs[0], rest, (keys - {refs[0]}) + {x});
    }
  }

  lemma ConsLists(x: string, refs: seq<string>, keys: set<string>)
    requires Lists(refs, keys) && forall j | 0 <= j < |refs| :: Before(x, refs[j])
    ensures Lists([x] + refs, keys + {x})
  {
    var all := [x] + refs;
    forall i, j | 0 <= i < j < |all| ensures Before(all[i], all[j]) {
      assert all[j] == refs[j - 1] && (i > 0 ==> all[i] == refs[i - 1]);
    }
  }

  /** Each ref once, as a map's keys are met. */
  predicate Once(refs: seq<string>) {
    forall i, j | 0 <= i < j < |refs| :: refs[i] != refs[j]
  }

  lemma {:induction false} SortLists(refs: seq<string>, keys: set<string>)
    requires Once(refs) && forall ref :: ref in refs <==> ref in keys
    ensures Lists(SortRefs(refs), keys)
    decreases |refs|
  {
    if refs != [] {
      assert refs == [refs[0]] + refs[1..];
      assert refs[0] !in refs[1..];
      SortLists(refs[1..], keys - {refs[0]});
      InsertLists(refs[0], SortRefs(refs[1..]), keys - {refs[0]});
      assert refs[0] in keys;
      assert keys - {refs[0]} + {refs[0]} == keys;
    }
  }

  lemma {:induction false} SomeListing(keys: set<string>)
    ensures exists refs :: Lists(refs, keys)
    decreases keys
  {
    if keys == {} {
      assert Lists([], keys);
    } else {
      var ref :| ref in keys;
      SomeListing(keys - {ref});
      var refs :| Lists(refs, keys - {ref});
      InsertLists(ref, refs, keys - {ref});
      assert keys - {ref} + {ref} == keys;
    }
  }

  ghost function Listing(keys: set<string>): (refs: seq<string>)
    ensures Lists(refs, keys)
  {
    SomeListing(keys);
    var refs :| Lists(refs, keys);
    refs
  }

  /** A map's keys are met in any order; sorting them makes the order the refs' own. */
  method SortedRefs(keys: set<string>) returns (refs: seq<string>)
    ensures refs == Listing(keys)
  {
    var met, todo := [], keys;
    while todo != {}
      invariant todo <= keys && Once(met) && forall ref :: ref in met <==> ref in keys - todo
      decreases todo
    {
      var ref :| ref in todo;
      assert ref !in met;
      met, todo := met + [ref], todo - {ref};
    }
    SortLists(met, keys);
    OneListing(SortRefs(met), Listing(keys), keys);
    return SortRefs(met);
  }

  // ----- the diff -----------------------------------------------------------------------------

  function Rows(s: Snapshot): map<string, Watched> {
    match s case Unfilled => map[] case Filled(rows) => rows
  }

  function Word(d: Disposition): string {
    match d case WasSevered => "severed" case WasHeld => "held" case Noticed => "noticed"
  }

  function If(b: bool, c: Change): seq<Change> {
    if b then [c] else []
  }

  predicate Rises(was: Watched, now: Watched) {
    was.lane != now.lane && LaneRank(now.lane) < LaneRank(was.lane)
  }

  /** What one ref standing in both emits. */
  function Moves(was: Watched, now: Watched, ref: string): seq<Change> {
    If(Rises(was, now), Change(Promoted, ref, now.lane, was.lane, now.lane, now.alert))
    + If(was.holder == "" && now.holder != "", Change(HeldNow, ref, now.lane, "", now.holder, now.alert))
    + If(was.holder != "" && now.holder == "", Change(Released, ref, now.lane, was.holder, "", now.alert))
    + If(was.disposition != WasSevered && now.disposition == WasSevered,
         Change(SeveredNow, ref, now.lane, Word(was.disposition), Word(now.disposition), now.alert))
  }

  /** What one standing ref emits. */
  function ChangesAt(prev: map<string, Watched>, next: map<string, Watched>, ref: string): seq<Change>
    requires ref in next
  {
    if ref !in prev then [Change(Opened, ref, next[ref].lane, "", "", next[ref].alert)]
    else Moves(prev[ref], next[ref], ref)
  }

  function Standing(prev: map<string, Watched>, next: map<string, Watched>, refs: seq<string>): seq<Change>
    requires forall ref <- refs :: ref in next
  {
    if refs == [] then []
    else Standing(prev, next, refs[..|refs| - 1]) + ChangesAt(prev, next, refs[|refs| - 1])
  }

  function Gone(prev: map<string, Watched>, refs: seq<string>): seq<Change>
    requires forall ref <- refs :: ref in prev
  {
    if refs == [] then []
    else
      var ref := refs[|refs| - 1];
      Gone(prev, refs[..|refs| - 1]) + [Change(Resolved, ref, prev[ref].lane, "", "", prev[ref].alert)]
  }

  ghost function DiffOf(prev: Snapshot, next: Snapshot): seq<Change> {
    var (was, now) := (Rows(prev), Rows(next));
    if prev.Unfilled? then [] else Standing(was, now, Listing(now.Keys)) + Gone(was, Listing(was.Keys - now.Keys))
  }

  method EmitAt(was: map<string, Watched>, now: map<string, Watched>, ref: string) returns (out: seq<Change>)
    requires ref in now
    ensures out == ChangesAt(was, now, ref)
  {
    var to := now[ref];
    if ref !in was {
      return [Change(Opened, ref, to.lane, "", "", to.alert)];
    }
    var from := was[ref];
    out := [];
    if from.lane != to.lane && LaneRank(to.lane) < LaneRank(from.lane) {
      out := out + [Change(Promoted, ref, to.lane, from.lane, to.lane, to.alert)];
    }
    if from.holder == "" && to.holder != "" {
      out := out + [Change(HeldNow, ref, to.lane, "", to.holder, to.alert)];
    }
    if from.holder != "" && to.holder == "" {
      out := out + [Change(Released, ref, to.lane, from.holder, "", to.alert)];
    }
    if from.disposition != WasSevered && to.disposition == WasSevered {
      out := out + [Change(SeveredNow, ref, to.lane, Word(from.disposition), Word(to.disposition), to.alert)];
    }
  }

  method EmitStanding(was: map<string, Watched>, now: map<string, Watched>, refs: seq<string>)
    returns (out: seq<Change>)
    requires forall ref <- refs :: ref in now
    ensures out == Standing(was, now, refs)
  {
    out := [];
    for i := 0 to |refs|
      invariant out == Standing(was, now, refs[..i])
    {
      assert refs[..i + 1][..i] == refs[..i];
      var changes := EmitAt(was, now, refs[i]);
      out := out + changes;
    }
    assert refs[..|refs|] == refs;
  }

  method EmitGone(was: map<string, Watched>, refs: seq<string>) returns (out: seq<Change>)
    requires forall ref <- refs :: ref in was
    ensures out == Gone(was, refs)
  {
    out := [];
    for i := 0 to |refs|
      invariant out == Gone(was, refs[..i])
    {
      assert refs[..i + 1][..i] == refs[..i];
      out := out + [Change(Resolved, refs[i], was[refs[i]].lane, "", "", was[refs[i]].alert)];
    }
    assert refs[..|refs|] == refs;
  }

  method Diff(prev: Snapshot, next: Snapshot) returns (out: seq<Change>)
    ensures out == DiffOf(prev, next)
  {
    hide Lists, Standing, Gone;
    if prev.Unfilled? {
      return [];
    }
    var was, now := Rows(prev), Rows(next);
    var refs := SortedRefs(now.Keys);
    ListedKeys(now.Keys);
    var standing := EmitStanding(was, now, refs);
    var gone := SortedRefs(was.Keys - now.Keys);
    ListedKeys(was.Keys - now.Keys);
    var resolved := EmitGone(was, gone);
    return standing + resolved;
  }

  lemma ListedKeys(keys: set<string>)
    ensures forall ref :: ref in Listing(keys) <==> ref in keys
  {
  }

  // ----- what a diff says, change by change -------------------------------------------------------

  /** A lane is worse than another in the order act-now, review, unscored and any other. */
  predicate Worse(lane: string, than: string) {
    || (lane == "act-now" && than != "act-now") || (lane == "review" && than !in {"act-now", "review"})
    || (lane == "" && than !in {"act-now", "review", ""})
  }

  /** What a change of each kind tells of a ref that stands before and after: the two sides of what moved. */
  predicate Tells(was: Watched, now: Watched, c: Change) {
    match c.kind
    case Opened => false
    case Resolved => false
    case Promoted => c.was == was.lane && c.now == now.lane && Worse(now.lane, was.lane)
    case HeldNow => c.was == "" && was.holder == "" && c.now == now.holder && now.holder != ""
    case Released => c.was == was.holder && was.holder != "" && c.now == "" && now.holder == ""
    case SeveredNow =>
      && c.was == (if was.disposition == WasHeld then "held" else "noticed") && was.disposition != WasSevered
      && c.now == "severed" && now.disposition == WasSevered
  }

  /** What it tells between two snapshots. */
  predicate Reports(was: map<string, Watched>, now: map<string, Watched>, c: Change) {
    if c.ref in was && c.ref in now
    then Tells(was[c.ref], now[c.ref], c) && c.lane == now[c.ref].lane && c.alert == now[c.ref].alert
    else if c.ref in now then c == Change(Opened, c.ref, now[c.ref].lane, "", "", now[c.ref].alert)
    else c.ref in was && c == Change(Resolved, c.ref, was[c.ref].lane, "", "", was[c.ref].alert)
  }

  lemma InIf(b: bool, d: Change, c: Change)
    ensures c in If(b, d) <==> b && c == d
  {
  }

  lemma TellsMoves(was: Watched, now: Watched, ref: string, c: Change)
    ensures c in Moves(was, now, ref) <==>
              Tells(was, now, c) && c.ref == ref && c.lane == now.lane && c.alert == now.alert
  {
    hide If;
    InIf(Rises(was, now), Change(Promoted, ref, now.lane, was.lane, now.lane, now.alert), c);
    InIf(was.holder == "" && now.holder != "", Change(HeldNow, ref, now.lane, "", now.holder, now.alert), c);
    InIf(was.holder != "" && now.holder == "", Change(Released, ref, now.lane, was.holder, "", now.alert), c);
    InIf(was.disposition != WasSevered && now.disposition == WasSevered,
         Change(SeveredNow, ref, now.lane, Word(was.disposition), Word(now.disposition), now.alert), c);
    RisesWorse(was, now);
  }

  lemma RisesWorse(was: Watched, now: Watched)
    ensures Rises(was, now) <==> Worse(now.lane, was.lane)
  {
  }

  lemma ReportsMoves(was: map<string, Watched>, now: map<string, Watched>, ref: string, c: Change)
    requires ref in now
    ensures c in ChangesAt(was, now, ref) <==> Reports(was, now, c) && c.ref == ref && c.kind != Resolved
  {
    hide Moves;
    if ref in was {
      TellsMoves(was[ref], now[ref], ref, c);
    }
  }

  lemma {:induction false} ReportsStanding(was: map<string, Watched>, now: map<string, Watched>, refs: seq<string>,
                                           c: Change)
    requires forall ref <- refs :: ref in now
    ensures c in Standing(was, now, refs) <==> Reports(was, now, c) && c.ref in refs && c.kind != Resolved
    decreases |refs|
  {
    hide Reports, ChangesAt;
    if refs != [] {
      var before, ref := refs[..|refs| - 1], refs[|refs| - 1];
      ReportsStanding(was, now, before, c);
      ReportsMoves(was, now, ref, c);
      assert refs == before + [ref];
    }
  }

  lemma {:induction false} ReportsGone(was: map<string, Watched>, refs: seq<string>, c: Change)
    requires forall ref <- refs :: ref in was
    ensures c in Gone(was, refs) <==>
              c.ref in refs && c == Change(Resolved, c.ref, was[c.ref].lane, "", "", was[c.ref].alert)
    decreases |refs|
  {
    if refs != [] {
      var before, ref := refs[..|refs| - 1], refs[|refs| - 1];
      ReportsGone(was, before, c);
      assert refs == before + [ref];
    }
  }

  /** A diff holds exactly the changes that report something between the two: each with the lane, the two sides
      that moved and the alert it is of. */
  lemma DiffReports(prev: Snapshot, next: Snapshot, c: Change)
    requires prev.Filled?
    ensures c in DiffOf(prev, next) <==> Reports(Rows(prev), Rows(next), c)
  {
    hide Standing, Gone, Lists;
    var was, now := Rows(prev), Rows(next);
    ListedKeys(now.Keys);
    ListedKeys(was.Keys - now.Keys);
    ReportsStanding(was, now, Listing(now.Keys), c);
    ReportsGone(was, Listing(was.Keys - now.Keys), c);
  }

  function KindRank(k: Kind): nat {
    match k
    case Opened => 0
    case Promoted => 1
    case HeldNow => 2
    case Released => 3
    case SeveredNow => 4
    case Resolved => 5
  }

  /** What still stands comes before what is gone, each by ref, and one ref's changes in the kinds' order. */
  predicate Sooner(a: Change, b: Change) {
    if a.kind == Resolved || b.kind == Resolved then b.kind == Resolved && (a.kind == Resolved ==> Before(a.ref, b.ref))
    else Before(a.ref, b.ref) || (a.ref == b.ref && KindRank(a.kind) < KindRank(b.kind))
  }

  ghost predicate InOrder(changes: seq<Change>) {
    forall i, j | 0 <= i < j < |changes| :: Sooner(changes[i], changes[j])
  }

  lemma OrderJoins(a: seq<Change>, b: seq<Change>)
    requires InOrder(a) && InOrder(b) && forall c <- a, d <- b :: Sooner(c, d)
    ensures InOrder(a + b)
  {
    hide Sooner;
    var all := a + b;
    forall i, j | 0 <= i < j < |all| ensures Sooner(all[i], all[j]) {
      if i < |a| <= j {
        assert all[i] in a && all[j] in b;
      } else if |a| <= i {
        assert all[i] == b[i - |a|] && all[j] == b[j - |a|];
      }
    }
  }

  lemma {:induction false} StandingInOrder(was: map<string, Watched>, now: map<string, Watched>, refs: seq<string>)
    requires (forall ref <- refs :: ref in now) && Ascending(refs)
    ensures InOrder(Standing(was, now, refs))
    decreases |refs|
  {
    hide ChangesAt, Tells, Before;
    if refs != [] {
      var before, ref := refs[..|refs| - 1], refs[|refs| - 1];
      StandingInOrder(was, now, before);
      OneRefInOrder(was, now, ref);
      forall c, d | c in Standing(was, now, before) && d in ChangesAt(was, now, ref) ensures Sooner(c, d) {
        ReportsStanding(was, now, before, c);
        ReportsMoves(was, now, ref, d);
        var i :| 0 <= i < |before| && before[i] == c.ref;
        assert Before(refs[i], refs[|before|]);
      }
      OrderJoins(Standing(was, now, before), ChangesAt(was, now, ref));
    }
  }

  lemma OneRefInOrder(was: map<string, Watched>, now: map<string, Watched>, ref: string)
    requires ref in now
    ensures InOrder(ChangesAt(was, now, ref))
  {
    hide Rises, Word, Before;
  }

  lemma {:induction false} GoneInOrder(was: map<string, Watched>, refs: seq<string>)
    requires (forall ref <- refs :: ref in was) && Ascending(refs)
    ensures InOrder(Gone(was, refs)) && |Gone(was, refs)| == |refs|
    ensures forall i | 0 <= i < |refs| :: Gone(was, refs)[i].ref == refs[i] && Gone(was, refs)[i].kind == Resolved
    decreases |refs|
  {
    hide Before;
    if refs != [] {
      GoneInOrder(was, refs[..|refs| - 1]);
      assert forall i | 0 <= i < |refs| - 1 :: Before(refs[i], refs[|refs| - 1]);
    }
  }

  /** Its changes come in one order, so they are told once each and there is only one such sequence. */
  lemma DiffInOrder(prev: Snapshot, next: Snapshot)
    ensures InOrder(DiffOf(prev, next))
  {
    hide Standing, Gone, Before, Tells;
    var was, now := Rows(prev), Rows(next);
    if prev.Filled? {
      var refs, gone := Listing(now.Keys), Listing(was.Keys - now.Keys);
      StandingInOrder(was, now, refs);
      GoneInOrder(was, gone);
      forall c, d | c in Standing(was, now, refs) && d in Gone(was, gone) ensures Sooner(c, d) {
        ReportsStanding(was, now, refs, c);
        ReportsGone(was, gone, d);
      }
      OrderJoins(Standing(was, now, refs), Gone(was, gone));
    }
  }

  // ----- what the stream is worth: replaying it -------------------------------------------------

  /** Which refs stand, and whether somebody holds each. */
  type Queue = map<string, bool>

  function QueueOf(rows: map<string, Watched>): Queue {
    map ref <- rows :: ref := rows[ref].holder != ""
  }

  /** A reader of the stream: one that reads the alert carried with an opening takes the condition as
      held when the alert says so; one that goes by the kinds alone takes it as nobody's. */
  function Apply(q: Queue, c: Change, told: bool): Queue {
    match c.kind
    case Opened => q[c.ref := told && c.alert.Held()]
    case Resolved => q - {c.ref}
    case HeldNow => q[c.ref := true]
    case Released => q[c.ref := false]
    case _ => q
  }

  function Replay(q: Queue, changes: seq<Change>, told: bool): Queue {
    if changes == [] then q else Apply(Replay(q, changes[..|changes| - 1], told), changes[|changes| - 1], told)
  }

  lemma {:induction false} ReplayConcat(q: Queue, a: seq<Change>, b: seq<Change>, told: bool)
    ensures Replay(q, a + b, told) == Replay(Replay(q, a, told), b, told)
    decreases |b|
  {
    if b == [] {
      assert a + b == a;
    } else {
      ReplayConcat(q, a, b[..|b| - 1], told);
      assert (a + b)[..|a + b| - 1] == a + b[..|b| - 1];
    }
  }

  /** Each ref's alert says who holds it, as the ref itself does. */
  predicate Consistent(rows: map<string, Watched>) {
    forall ref <- rows :: rows[ref].alert.Held() <==> rows[ref].holder != ""
  }

  lemma {:induction false} SnapsAreConsistent(o: Options, b: Book, rows: seq<Row>)
    ensures Consistent(SnapRows(o, b, rows))
    decreases |rows|
  {
    if rows != [] {
      SnapsAreConsistent(o, b, rows[..|rows| - 1]);
    }
  }

  lemma ReplayNothing(q: Queue, told: bool)
    ensures Replay(q, [], told) == q
  {
  }

  lemma ReplayIf(q: Queue, b: bool, c: Change, told: bool)
    ensures Replay(q, If(b, c), told) == if b then Apply(q, c, told) else q
  {
    assert [c][..0] == [];
    assert Replay(q, [c], told) == Apply(Replay(q, [], told), c, told);
  }

  lemma ReplayThen(q: Queue, a: seq<Change>, b: bool, c: Change, told: bool)
    ensures Replay(q, a + If(b, c), told) == if b then Apply(Replay(q, a, told), c, told) else Replay(q, a, told)
  {
    ReplayConcat(q, a, If(b, c), told);
    ReplayIf(Replay(q, a, told), b, c, told);
  }

  lemma ReplayMoves(q: Queue, was: Watched, now: Watched, ref: string, told: bool)
    requires ref in q && q[ref] == (was.holder != "")
    ensures Replay(q, Moves(was, now, ref), told) == q[ref := now.holder != ""]
  {
    hide Replay;
    var promoted := Change(Promoted, ref, now.lane, was.lane, now.lane, now.alert);
    var held := Change(HeldNow, ref, now.lane, "", now.holder, now.alert);
    var released := Change(Released, ref, now.lane, was.holder, "", now.alert);
    var severed := Change(SeveredNow, ref, now.lane, Word(was.disposition), Word(now.disposition), now.alert);
    var taken, dropped := was.holder == "" && now.holder != "", was.holder != "" && now.holder == "";
    var p := If(Rises(was, now), promoted);
    ReplayIf(q, Rises(was, now), promoted, told);
    ReplayThen(q, p, taken, held, told);
    ReplayThen(q, p + If(taken, held), dropped, released, told);
    ReplayThen(q, p + If(taken, held) + If(dropped, released),
               was.disposition != WasSevered && now.disposition == WasSevered, severed, told);
    assert q[ref := was.holder != ""] == q;
  }

  /** Whether a reader takes a standing ref as held: as it is, or as nobody's when it opened untold. */
  predicate Told(prev: map<string, Watched>, next: map<string, Watched>, ref: string, told: bool)
    requires ref in next
  {
    (told || ref in prev) && next[ref].holder != ""
  }

  lemma ReplayAt(q: Queue, prev: map<string, Watched>, next: map<string, Watched>, ref: string, told: bool)
    requires ref in next && (next[ref].alert.Held() <==> next[ref].holder != "")
    requires ref in prev ==> ref in q && q[ref] == (prev[ref].holder != "")
    ensures Replay(q, ChangesAt(prev, next, ref), told) == q[ref := Told(prev, next, ref, told)]
  {
    if ref in prev {
      ReplayMoves(q, prev[ref], next[ref], ref, told);
    } else {
      ReplayIf(q, true, Change(Opened, ref, next[ref].lane, "", "", next[ref].alert), told);
    }
  }

  /** The queue once these refs have been brought up to date and the rest not. */
  function Halfway(prev: map<string, Watched>, next: map<string, Watched>, done: set<string>, told: bool): Queue
    requires done <= next.Keys
  {
    map ref <- prev.Keys + done :: ref := if ref in done then Told(prev, next, ref, told) else prev[ref].holder != ""
  }

  lemma HalfwayGrows(prev: map<string, Watched>, next: map<string, Watched>, done: set<string>, ref: string, told: bool)
    requires done <= next.Keys && ref in next
    ensures Halfway(prev, next, done, told)[ref := Told(prev, next, ref, told)]
            == Halfway(prev, next, done + {ref}, told)
  {
    hide Told;
  }

  lemma HalfwayStep(prev: map<string, Watched>, next: map<string, Watched>, done: set<string>, ref: string, told: bool)
    requires done <= next.Keys && ref in next && ref !in done && Consistent(next)
    ensures Replay(Halfway(prev, next, done, told), ChangesAt(prev, next, ref), told)
            == Halfway(prev, next, done + {ref}, told)
  {
    hide Replay, ChangesAt, Told;
    ReplayAt(Halfway(prev, next, done, told), prev, next, ref, told);
    HalfwayGrows(prev, next, done, ref, told);
  }

  lemma {:induction false} ReplayStanding(prev: map<string, Watched>, next: map<string, Watched>, refs: seq<string>,
                                          told: bool)
    requires (forall ref <- refs :: ref in next) && Consistent(next) && Once(refs)
    ensures Replay(QueueOf(prev), Standing(prev, next, refs), told) == Halfway(prev, next, (set ref <- refs), told)
    decreases |refs|
  {
    hide Replay, ChangesAt, Told;
    if refs == [] {
      ReplayNothing(QueueOf(prev), told);
      assert QueueOf(prev) == Halfway(prev, next, {}, told);
    } else {
      var before, ref := refs[..|refs| - 1], refs[|refs| - 1];
      ReplayStanding(prev, next, before, told);
      ReplayConcat(QueueOf(prev), Standing(prev, next, before), ChangesAt(prev, next, ref), told);
      assert refs == before + [ref];
      var done := set r <- before;
      assert (set r <- refs) == done + {ref};
      HalfwayStep(prev, next, done, ref, told);
    }
  }

  lemma {:induction false} ReplayGone(q: Queue, prev: map<string, Watched>, refs: seq<string>, told: bool)
    requires forall ref <- refs :: ref in prev
    ensures Replay(q, Gone(prev, refs), told) == q - (set ref <- refs)
    decreases |refs|
  {
    hide Replay;
    if refs == [] {
      ReplayNothing(q, told);
      assert q - (set ref <- refs) == q;
    } else {
      var before, ref := refs[..|refs| - 1], refs[|refs| - 1];
      var resolved := Change(Resolved, ref, prev[ref].lane, "", "", prev[ref].alert);
      ReplayGone(q, prev, before, told);
      ReplayThen(q, Gone(prev, before), true, resolved, told);
      assert refs == before + [ref];
      assert (set r <- refs) == (set r <- before) + {ref};
      assert q - (set r <- before) - {ref} == q - ((set r <- before) + {ref});
    }
  }

  lemma ListedOnce(keys: set<string>)
    ensures Once(Listing(keys))
  {
    var refs := Listing(keys);
    forall i, j | 0 <= i < j < |refs| ensures refs[i] != refs[j] {
      BeforeIsTotal(refs[i], refs[i]);
    }
  }

  /** Replaying a diff over the older snapshot's queue gives the newer one's refs, each held as told. */
  lemma DiffReplays(prev: Snapshot, next: Snapshot, told: bool)
    requires prev.Filled? && Consistent(Rows(next))
    ensures Replay(QueueOf(Rows(prev)), DiffOf(prev, next), told)
            == map ref <- Rows(next) :: ref := Told(Rows(prev), Rows(next), ref, told)
  {
    hide Standing, Gone, Replay, Told, Lists, Once, Consistent;
    var was, now := Rows(prev), Rows(next);
    var refs, gone := Listing(now.Keys), Listing(was.Keys - now.Keys);
    ListedOnce(now.Keys);
    ListedKeys(now.Keys);
    ListedKeys(was.Keys - now.Keys);
    ReplayStanding(was, now, refs, told);
    ReplayConcat(QueueOf(was), Standing(was, now, refs), Gone(was, gone), told);
    assert (set ref <- gone) == was.Keys - now.Keys;
    assert (set ref <- refs) == now.Keys;
    ReplayGone(Halfway(was, now, now.Keys, told), was, gone, told);
  }

  lemma UntoldDiffers(prev: map<string, Watched>, next: map<string, Watched>)
    ensures (map ref <- next :: ref := Told(prev, next, ref, false)) == QueueOf(next)
            <==> forall ref <- next :: ref !in prev ==> next[ref].holder == ""
  {
    var queue := map ref <- next :: ref := Told(prev, next, ref, false);
    if queue == QueueOf(next) {
      forall ref <- next | ref !in prev ensures next[ref].holder == "" {
        assert queue[ref] == QueueOf(next)[ref];
      }
    }
  }

  /** A reader that goes by the kinds alone has the newer queue exactly when nothing opened already held. */
  lemma KindsAloneExactly(prev: Snapshot, next: Snapshot)
    requires prev.Filled? && Consistent(Rows(next))
    ensures Replay(QueueOf(Rows(prev)), DiffOf(prev, next), false) == QueueOf(Rows(next))
            <==> forall ref <- Rows(next) :: ref !in Rows(prev) ==> Rows(next)[ref].holder == ""
  {
    hide Replay, DiffOf, QueueOf, Consistent;
    DiffReplays(prev, next, false);
    UntoldDiffers(Rows(prev), Rows(next));
  }

  /** A row met for the first time with somebody on it already: the kinds alone leave it free. */
  lemma KindsAloneMissAHeldOpening()
    ensures var alert := Alert("a/T1", "", None, ACT_NOW, Digest, Noticed, "", "ada");
            var (prev, next) := (Filled(map[]), Filled(map["a/T1" := Watched(ACT_NOW, "", "ada", Noticed, alert)]));
            Consistent(Rows(next)) && Replay(QueueOf(Rows(prev)), DiffOf(prev, next), false) != QueueOf(Rows(next))
  {
    hide Replay, DiffOf, QueueOf;
    var alert := Alert("a/T1", "", None, ACT_NOW, Digest, Noticed, "", "ada");
    var next := Filled(map["a/T1" := Watched(ACT_NOW, "", "ada", Noticed, alert)]);
    assert "a/T1" in Rows(next);
    KindsAloneExactly(Filled(map[]), next);
  }

  // ----- whole runs ------------------------------------------------------------------------------

  /** The changes between each snapshot and the next. */
  ghost function Stream(snaps: seq<Snapshot>): seq<Change> {
    if |snaps| < 2 then []
    else Stream(snaps[..|snaps| - 1]) + DiffOf(snaps[|snaps| - 2], snaps[|snaps| - 1])
  }

  lemma AllTold(prev: map<string, Watched>, next: map<string, Watched>)
    ensures (map ref <- next :: ref := Told(prev, next, ref, true)) == QueueOf(next)
  {
  }

  /** Over any run of snapshots built from books, the stream replayed over the first gives the last. */
  lemma {:induction false} RunReplays(snaps: seq<Snapshot>)
    requires snaps != [] && forall s <- snaps :: s.Filled? && Consistent(Rows(s))
    ensures Replay(QueueOf(Rows(snaps[0])), Stream(snaps), true) == QueueOf(Rows(snaps[|snaps| - 1]))
    decreases |snaps|
  {
    hide Replay, DiffOf, QueueOf, Consistent, Told;
    if |snaps| == 1 {
      ReplayNothing(QueueOf(Rows(snaps[0])), true);
    } else {
      var before, prev, next := snaps[..|snaps| - 1], snaps[|snaps| - 2], snaps[|snaps| - 1];
      RunReplays(before);
      ReplayConcat(QueueOf(Rows(snaps[0])), Stream(before), DiffOf(prev, next), true);
      DiffReplays(prev, next, true);
      AllTold(Rows(prev), Rows(next));
    }
  }

  // ----- what emits nothing -----------------------------------------------------------------------

  /** Nothing a change reports: no lane up, nobody taking it or letting it go, no new containment. */
  predicate StoodStill(was: Watched, now: Watched) {
    && !Worse(now.lane, was.lane) && (was.holder == "" <==> now.holder == "")
    && (now.disposition == WasSevered ==> was.disposition == WasSevered)
  }

  lemma QuietAt(prev: map<string, Watched>, next: map<string, Watched>, ref: string)
    requires ref in next
    ensures ChangesAt(prev, next, ref) == [] <==> ref in prev && StoodStill(prev[ref], next[ref])
  {
    if ref in prev {
      RisesWorse(prev[ref], next[ref]);
    }
  }

  lemma {:induction false} StandingQuiet(prev: map<string, Watched>, next: map<string, Watched>, refs: seq<string>)
    requires forall ref <- refs :: ref in next
    ensures Standing(prev, next, refs) == [] <==> forall ref <- refs :: ref in prev && StoodStill(prev[ref], next[ref])
    decreases |refs|
  {
    hide ChangesAt, StoodStill;
    if refs != [] {
      var before, ref := refs[..|refs| - 1], refs[|refs| - 1];
      StandingQuiet(prev, next, before);
      QuietAt(prev, next, ref);
      assert refs == before + [ref];
    }
  }

  lemma ListingEmpty(keys: set<string>)
    ensures Listing(keys) == [] <==> keys == {}
  {
    if Listing(keys) != [] {
      HasKey(Listing(keys), keys);
    }
  }

  predicate SameStanding(was: map<string, Watched>, now: map<string, Watched>) {
    was.Keys == now.Keys && forall ref <- now :: ref in was && StoodStill(was[ref], now[ref])
  }

  /** A diff is empty exactly when the same refs stand and none moved in a way a change reports: a score,
      a title, an alert's other cells and a lane going down are nowhere in it. */
  lemma QuietExactly(prev: Snapshot, next: Snapshot)
    requires prev.Filled?
    ensures DiffOf(prev, next) == [] <==> SameStanding(Rows(prev), Rows(next))
  {
    hide Lists, StoodStill, Standing;
    var was, now := Rows(prev), Rows(next);
    ListedKeys(now.Keys);
    StandingQuiet(was, now, Listing(now.Keys));
    ListingEmpty(was.Keys - now.Keys);
    ListedKeys(was.Keys - now.Keys);
    assert Gone(was, Listing(was.Keys - now.Keys)) == [] <==> was.Keys - now.Keys == {};
    if DiffOf(prev, next) == [] {
      assert now.Keys <= was.Keys;
      assert was.Keys <= now.Keys by {
        forall ref <- was ensures ref in now {
          assert ref !in was.Keys - now.Keys;
        }
      }
    } else if SameStanding(was, now) {
      assert was.Keys - now.Keys == {};
    }
  }

  lemma DiffWithItself(s: Snapshot)
    ensures DiffOf(s, s) == []
  {
    if s.Filled? {
      QuietExactly(s, s);
    }
  }
}
