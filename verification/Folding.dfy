/**
 Folding standing rows into campaigns: rows of one key, in the order they began, cut greedily into
 windows. Times are 64-bit milliseconds and `start + window` wraps.
 */
module Folding {
  import opened Wrappers
  import opened AlertModel
  import opened Ordering

  const HOUR_NS: int := 3_600_000_000_000
  const MS_NS: int := 1_000_000

  datatype Campaign = Campaign(technique: string, lane: string, rows: seq<Row>, startedMs: int)

  /** A fold that reaches a cut of nothing appends an empty campaign for ever. */
  datatype Folded = Diverges | Campaigns(list: seq<Campaign>)

  /** A window of nothing or less is an hour; the rest of a millisecond is dropped. */
  function WindowMs(windowNs: Millis): (w: int)
    ensures 0 <= w && MAX_INT64 + w <= MAX_INT64 + MAX_INT64
  {
    (if windowNs <= 0 then HOUR_NS else windowNs) / MS_NS
  }

  function FoldKey(r: Row): string {
    if r.technique == "" then r.id else r.technique
  }

  const Began: Row -> int := (r: Row) => r.firstSeen
  const ByLane: Campaign -> int := (c: Campaign) => LaneRank(c.lane)

  /** The keys, in the order they first appear. */
  function Keys(rows: seq<Row>): seq<string> {
    if rows == [] then []
    else
      var before, k := Keys(rows[..|rows| - 1]), FoldKey(rows[|rows| - 1]);
      if k in before then before else before + [k]
  }

  function Group(rows: seq<Row>, k: string): seq<Row> {
    if rows == [] then []
    else Group(rows[..|rows| - 1], k) + (if FoldKey(rows[|rows| - 1]) == k then [rows[|rows| - 1]] else [])
  }

  /** The worst lane of a campaign; a lane worse than quiet is one the engine ranks. */
  function WorstLane(rows: seq<Row>): string {
    if rows == [] then QUIET
    else
      var before := WorstLane(rows[..|rows| - 1]);
      if LaneRank(rows[|rows| - 1].lane) < LaneRank(before) then rows[|rows| - 1].lane else before
  }

  /** How many rows come before the first one past the limit. */
  function FirstPast(rows: seq<Row>, limit: int): (n: nat)
    ensures n <= |rows|
  {
    if rows == [] || (rows[0].firstSeen > 0 && rows[0].firstSeen > limit) then 0 else 1 + FirstPast(rows[1..], limit)
  }

  function Cut(rows: seq<Row>, w: int): (n: nat)
    requires rows != [] && 0 <= w <= MAX_INT64
    ensures n <= |rows|
  {
    if rows[0].firstSeen <= 0 then |rows| else FirstPast(rows, Wrap(rows[0].firstSeen + w))
  }

  function CampaignOf(k: string, rows: seq<Row>): Campaign
    requires rows != []
  {
    Campaign(k, WorstLane(rows), rows, rows[0].firstSeen)
  }

  /** One key's rows, cut from the front; nothing when a cut takes no row. */
  function Waves(k: string, rows: seq<Row>, w: int): Option<seq<Campaign>>
    requires 0 <= w <= MAX_INT64
    decreases |rows|
  {
    if rows == [] then Some([])
    else
      var n := Cut(rows, w);
      if n == 0 then None
      else
        Joined([CampaignOf(k, rows[..n])], Waves(k, rows[n..], w))
  }

  function AllWaves(keys: seq<string>, rows: seq<Row>, w: int): Option<seq<Campaign>>
    requires 0 <= w <= MAX_INT64
  {
    if keys == [] then Some([])
    else
      var k := keys[|keys| - 1];
      match AllWaves(keys[..|keys| - 1], rows, w)
      case None => None
      case Some(before) => Joined(before, Waves(k, StableSort(Group(rows, k), Began), w))
  }

  function FoldOf(rows: seq<Row>, windowNs: Millis): Folded {
    match AllWaves(Keys(rows), rows, WindowMs(windowNs))
    case None => Diverges
    case Some(out) => Campaigns(StableSort(out, ByLane))
  }

  // ----- the loops ---------------------------------------------------------------------------

  method FindWorstLane(rows: seq<Row>) returns (worst: string)
    ensures worst == WorstLane(rows)
  {
    worst := QUIET;
    for i := 0 to |rows|
      invariant worst == WorstLane(rows[..i])
    {
      assert rows[..i + 1][..i] == rows[..i];
      if LaneRank(rows[i].lane) < LaneRank(worst) {
        worst := rows[i].lane;
      }
    }
    assert rows[..|rows|] == rows;
  }

  method FindCut(members: seq<Row>, w: int) returns (cut: nat)
    requires members != [] && 0 <= w <= MAX_INT64
    ensures cut == Cut(members, w)
  {
    var start := members[0].firstSeen;
    cut := |members|;
    if start > 0 {
      var limit := Wrap(start + w);
      for i := 0 to |members|
        invariant cut == |members|
        invariant Cut(members, w) == i + FirstPast(members[i..], limit)
      {
        if members[i].firstSeen > 0 && members[i].firstSeen > limit {
          cut := i;
          return;
        }
        assert members[i..][1..] == members[i + 1..];
      }
    }
  }

  function Joined(done: seq<Campaign>, rest: Option<seq<Campaign>>): Option<seq<Campaign>> {
    match rest case None => None case Some(more) => Some(done + more)
  }

  lemma JoinedStep(done: seq<Campaign>, c: Campaign, rest: Option<seq<Campaign>>)
    ensures Joined(done, Joined([c], rest)) == Joined(done + [c], rest)
  {
    if rest.Some? {
      assert done + ([c] + rest.value) == (done + [c]) + rest.value;
    }
  }

  /** Where the inner loop cannot move, the fold is said to diverge instead of running on. */
  method FoldMembers(k: string, sorted: seq<Row>, w: int) returns (out: Option<seq<Campaign>>)
    requires 0 <= w <= MAX_INT64
    ensures out == Waves(k, sorted, w)
  {
    var members, done := sorted, [];
    assert Waves(k, sorted, w).Some? ==> [] + Waves(k, sorted, w).value == Waves(k, sorted, w).value;
    while members != []
      invariant Waves(k, sorted, w) == Joined(done, Waves(k, members, w))
      decreases |members|
    {
      var cut := FindCut(members, w);
      if cut == 0 {
        return None;
      }
      var lane := FindWorstLane(members[..cut]);
      var wave := Campaign(k, lane, members[..cut], members[0].firstSeen);
      JoinedStep(done, wave, Waves(k, members[cut..], w));
      done, members := done + [wave], members[cut..];
    }
    assert done + [] == done;
    return Some(done);
  }

  method GroupRows(rows: seq<Row>) returns (order: seq<string>, groups: map<string, seq<Row>>)
    ensures order == Keys(rows)
    ensures forall k <- order :: k in groups && groups[k] == Group(rows, k)
  {
    order, groups := [], map[];
    for i := 0 to |rows|
      invariant order == Keys(rows[..i])
      invariant forall k <- order :: k in groups && groups[k] == Group(rows[..i], k)
      invariant forall k :: k !in order ==> k !in groups && Group(rows[..i], k) == []
    {
      assert rows[..i + 1][..i] == rows[..i];
      var k := FoldKey(rows[i]);
      if k !in groups {
        order := order + [k];
        groups := groups[k := []];
      }
      groups := groups[k := groups[k] + [rows[i]]];
    }
    assert rows[..|rows|] == rows;
  }

  method Fold(rows: seq<Row>, windowNs: Millis) returns (r: Folded)
    ensures r == FoldOf(rows, windowNs)
  {
    hide Waves, Keys, Group, StableSort, WindowMs;
    var w := WindowMs(windowNs);
    var order, groups := GroupRows(rows);
    var out := [];
    for i := 0 to |order|
      invariant AllWaves(order[..i], rows, w) == Some(out)
    {
      assert order[..i + 1][..i] == order[..i];
      var waves := FoldMembers(order[i], StableSort(groups[order[i]], Began), w);
      if waves.None? {
        DivergesEarly(order, i + 1, rows, w);
        return Diverges;
      }
      out := out + waves.value;
    }
    assert order[..|order|] == order;
    return Campaigns(StableSort(out, ByLane));
  }

  lemma {:induction false} DivergesEarly(keys: seq<string>, n: nat, rows: seq<Row>, w: int)
    requires n <= |keys| && 0 <= w <= MAX_INT64 && AllWaves(keys[..n], rows, w).None?
    ensures AllWaves(keys, rows, w).None?
    decreases |keys| - n
  {
    if n == |keys| {
      assert keys[..n] == keys;
    } else {
      assert keys[..n + 1][..n] == keys[..n];
      DivergesEarly(keys, n + 1, rows, w);
    }
  }
}
