/**
 What folding is for: every row in exactly one campaign, each campaign one key's rows in the order they
 began, and for a key whose rows are all stamped the fewest campaigns a window allows. And where it is
 not so: a start so late that `start + window` wraps, and an unstamped row.
 */
module FoldingLaws {
  import opened Wrappers
  import opened AlertModel
  import opened Ordering
  import opened Folding

  // ----- without wrap-around -----------------------------------------------------------------

  function IdealCut(rows: seq<Row>, w: int): (n: nat)
    requires rows != [] && 0 <= w
    ensures 0 < n <= |rows|
  {
    if rows[0].firstSeen <= 0 then |rows| else FirstPast(rows, rows[0].firstSeen + w)
  }

  function IdealWaves(k: string, rows: seq<Row>, w: int): seq<Campaign>
    requires 0 <= w
    decreases |rows|
  {
    if rows == [] then []
    else
      var n := IdealCut(rows, w);
      [CampaignOf(k, rows[..n])] + IdealWaves(k, rows[n..], w)
  }

  /** The limit of this campaign is past the last 64-bit millisecond. */
  predicate Overflows(c: Campaign, w: int) {
    c.startedMs + w > MAX_INT64
  }

  predicate AnyOverflows(waves: seq<Campaign>, w: int) {
    exists c <- waves :: Overflows(c, w)
  }

  /** The loop runs on for ever exactly when a campaign starts too late; otherwise wrap-around changes nothing. */
  lemma {:induction false} WavesExactly(k: string, rows: seq<Row>, w: int)
    requires 0 <= w <= MAX_INT64
    ensures Waves(k, rows, w) == if AnyOverflows(IdealWaves(k, rows, w), w) then None else Some(IdealWaves(k, rows, w))
    decreases |rows|
  {
    if rows != [] {
      var n := IdealCut(rows, w);
      var head, rest := CampaignOf(k, rows[..n]), IdealWaves(k, rows[n..], w);
      WavesExactly(k, rows[n..], w);
      var all := [head] + rest;
      assert all == IdealWaves(k, rows, w);
      if Overflows(head, w) {
        assert head in all;
      } else {
        assert AnyOverflows(all, w) <==> AnyOverflows(rest, w);
      }
    }
  }

  // ----- one key -----------------------------------------------------------------------------

  function Flat(waves: seq<Campaign>): seq<Row> {
    if waves == [] then [] else waves[0].rows + Flat(waves[1..])
  }

  lemma {:induction false} WavesFlat(k: string, rows: seq<Row>, w: int)
    requires 0 <= w
    ensures Flat(IdealWaves(k, rows, w)) == rows
    decreases |rows|
  {
    if rows != [] {
      hide FirstPast, WorstLane;
      var n := IdealCut(rows, w);
      var head, rest := CampaignOf(k, rows[..n]), IdealWaves(k, rows[n..], w);
      WavesFlat(k, rows[n..], w);
      assert IdealWaves(k, rows, w) == [head] + rest;
      assert ([head] + rest)[1..] == rest;
      assert rows == rows[..n] + rows[n..];
    }
  }

  lemma SortedRest(rows: seq<Row>, n: nat)
    requires Sorted(rows, Began) && n <= |rows|
    ensures Sorted(rows[..n], Began) && Sorted(rows[n..], Began)
  {
    forall i, j | 0 <= i < j < |rows[n..]| ensures Began(rows[n..][i]) <= Began(rows[n..][j]) {
      assert Began(rows[n + i]) <= Began(rows[n + j]);
    }
  }

  lemma {:induction false} FirstPastSplits(rows: seq<Row>, limit: int)
    requires Sorted(rows, Began) && limit >= 0
    ensures forall i | 0 <= i < FirstPast(rows, limit) :: rows[i].firstSeen <= limit
    ensures forall i | FirstPast(rows, limit) <= i < |rows| :: rows[i].firstSeen > limit
    decreases |rows|
  {
    if rows != [] && rows[0].firstSeen <= limit {
      SortedRest(rows, 1);
      FirstPastSplits(rows[1..], limit);
    } else if rows != [] {
      forall i | 0 <= i < |rows| ensures rows[i].firstSeen > limit {
        assert Began(rows[0]) <= Began(rows[i]);
      }
    }
  }

  predicate Within(rows: seq<Row>, w: int) {
    forall a <- rows, b <- rows :: a.firstSeen - b.firstSeen <= w
  }

  predicate AllStamped(rows: seq<Row>) {
    forall r <- rows :: r.firstSeen > 0
  }

  /** A stamped key's campaigns fit the window, and each starts more than a window after those before it. */
  predicate Spaced(waves: seq<Campaign>, w: int) {
    && (forall c <- waves :: Within(c.rows, w))
    && (forall i, j | 0 <= i < j < |waves| :: waves[j].startedMs > waves[i].startedMs + w)
  }

  /** Every campaign starts at one of the rows it was cut from. */
  lemma {:induction false} WavesStart(k: string, rows: seq<Row>, w: int)
    requires 0 <= w
    ensures forall c <- IdealWaves(k, rows, w) ::
              c.rows != [] && c.startedMs == c.rows[0].firstSeen && c.rows[0] in rows && c.technique == k
    decreases |rows|
  {
    if rows != [] {
      WavesStart(k, rows[IdealCut(rows, w)..], w);
    }
  }

  lemma {:induction false} ConsSpaced(head: Campaign, rest: seq<Campaign>, w: int)
    requires Within(head.rows, w) && Spaced(rest, w) && forall c <- rest :: c.startedMs > head.startedMs + w
    ensures Spaced([head] + rest, w)
  {
    var all := [head] + rest;
    forall i, j | 0 <= i < j < |all| ensures all[j].startedMs > all[i].startedMs + w {
      assert all[j] == rest[j - 1] && (i > 0 ==> all[i] == rest[i - 1]);
    }
  }

  lemma {:induction false} HeadWithin(rows: seq<Row>, n: nat, w: int)
    requires Sorted(rows, Began) && 0 < n <= |rows|
    requires forall i | 0 <= i < n :: rows[i].firstSeen <= rows[0].firstSeen + w
    ensures Within(rows[..n], w)
  {
    forall a <- rows[..n] ensures rows[0].firstSeen <= a.firstSeen <= rows[0].firstSeen + w {
      var i :| 0 <= i < n && rows[i] == a;
      assert i > 0 ==> Began(rows[0]) <= Began(rows[i]);
    }
  }

  lemma RestStartsLater(k: string, rows: seq<Row>, n: nat, w: int, bound: int)
    requires 0 <= w && n <= |rows| && forall i | n <= i < |rows| :: rows[i].firstSeen > bound
    ensures forall c <- IdealWaves(k, rows[n..], w) :: c.startedMs > bound
  {
    hide IdealWaves;
    WavesStart(k, rows[n..], w);
    forall c <- IdealWaves(k, rows[n..], w) ensures c.startedMs > bound {
      var i :| 0 <= i < |rows[n..]| && rows[n..][i] == c.rows[0];
      assert rows[n + i] == c.rows[0];
    }
  }

  lemma {:induction false} WavesSpaced(k: string, rows: seq<Row>, w: int)
    requires 0 <= w && Sorted(rows, Began) && AllStamped(rows)
    ensures Spaced(IdealWaves(k, rows, w), w)
    decreases |rows|
  {
    if rows != [] {
      hide Spaced, Within, FirstPast;
      var start, n := rows[0].firstSeen, IdealCut(rows, w);
      FirstPastSplits(rows, start + w);
      SortedRest(rows, n);
      HeadWithin(rows, n, w);
      assert AllStamped(rows[n..]);
      WavesSpaced(k, rows[n..], w);
      RestStartsLater(k, rows, n, w, start + w);
      ConsSpaced(CampaignOf(k, rows[..n]), IdealWaves(k, rows[n..], w), w);
    } else {
      assert IdealWaves(k, rows, w) == [];
    }
  }

  /** The rows are shared out among these parts, each fitting the window. */
  ghost predicate Covers(parts: seq<seq<Row>>, rows: seq<Row>, w: int) {
    && (forall p <- parts :: Within(p, w))
    && (forall r <- rows :: exists p <- parts :: r in p)
  }

  /** The part that holds the first row reaches none of the rows past the first cut. */
  lemma {:induction false} OthersCover(rows: seq<Row>, n: nat, w: int, parts: seq<seq<Row>>, i: nat)
    requires n <= |rows| && rows != [] && i < |parts| && rows[0] in parts[i] && Covers(parts, rows, w)
    requires forall j | n <= j < |rows| :: rows[j].firstSeen > rows[0].firstSeen + w
    ensures Covers(parts[..i] + parts[i + 1..], rows[n..], w)
  {
    var others := parts[..i] + parts[i + 1..];
    forall r <- rows[n..] ensures exists p <- others :: r in p {
      assert r in rows;
      var p :| p in parts && r in p;
      var j :| 0 <= j < |parts| && parts[j] == p;
      assert r.firstSeen - rows[0].firstSeen > w;
      assert j != i;
      assert others[if j < i then j else j - 1] == p;
    }
  }

  /** No way of sharing a stamped key's rows among windows needs fewer parts. */
  lemma {:induction false} NoSmallerCover(k: string, rows: seq<Row>, w: int, parts: seq<seq<Row>>)
    requires 0 <= w && Sorted(rows, Began) && AllStamped(rows) && Covers(parts, rows, w)
    ensures |IdealWaves(k, rows, w)| <= |parts|
    decreases |rows|
  {
    if rows != [] {
      var n := IdealCut(rows, w);
      FirstPastSplits(rows, rows[0].firstSeen + w);
      SortedRest(rows, n);
      assert rows[0] in rows;
      var first :| first in parts && rows[0] in first;
      var i :| 0 <= i < |parts| && parts[i] == first;
      OthersCover(rows, n, w, parts, i);
      NoSmallerCover(k, rows[n..], w, parts[..i] + parts[i + 1..]);
    }
  }

  /** Rows whose first stamp is missing are all one campaign, however far apart they began. */
  lemma UnstampedSwallows(k: string, rows: seq<Row>, w: int)
    requires 0 <= w && rows != [] && rows[0].firstSeen <= 0
    ensures IdealWaves(k, rows, w) == [CampaignOf(k, rows)]
  {
    assert rows[..|rows|] == rows && rows[|rows|..] == [];
  }

  /** Every campaign fits the window exactly when the key's rows are all stamped or all fit it together. */
  lemma FitsExactly(k: string, rows: seq<Row>, w: int)
    requires 0 <= w && Sorted(rows, Began)
    ensures (forall c <- IdealWaves(k, rows, w) :: Within(c.rows, w)) <==> AllStamped(rows) || Within(rows, w)
  {
    if rows != [] && rows[0].firstSeen <= 0 {
      UnstampedSwallows(k, rows, w);
      assert IdealWaves(k, rows, w)[0].rows == rows;
      assert rows[0] in rows;
    } else {
      forall r <- rows ensures r.firstSeen > 0 {
        var i :| 0 <= i < |rows| && rows[i] == r;
        assert i > 0 ==> Began(rows[0]) <= Began(rows[i]);
      }
      WavesSpaced(k, rows, w);
    }
  }

  /** An unstamped row beside one that began past the window: one campaign that does not fit. */
  lemma UnstampedDoesNotFit()
    ensures var at := (ms: Millis) => Row("", "", "", "T1", "", ACT_NOW, "", None, ms, "", None, "");
            var rows := [at(0), at(10)];
            Sorted(rows, Began) && exists c <- IdealWaves("T1", rows, 5) :: !Within(c.rows, 5)
  {
    var at := (ms: Millis) => Row("", "", "", "T1", "", ACT_NOW, "", None, ms, "", None, "");
    var rows := [at(0), at(10)];
    assert rows[0].firstSeen == 0 && rows[1].firstSeen == 10;
    assert rows[0] in rows && rows[1] in rows;
    assert Sorted(rows, Began);
    FitsExactly("T1", rows, 5);
  }

  lemma {:induction false} WorstIsMin(rows: seq<Row>)
    ensures forall r <- rows :: LaneRank(WorstLane(rows)) <= LaneRank(r.lane)
    ensures WorstLane(rows) == QUIET || exists r <- rows :: r.lane == WorstLane(rows)
    ensures LaneRank(WorstLane(rows)) < LaneRank(QUIET) || WorstLane(rows) == QUIET
    decreases |rows|
  {
    if rows != [] {
      var before := rows[..|rows| - 1];
      WorstIsMin(before);
      forall r <- rows ensures LaneRank(WorstLane(rows)) <= LaneRank(r.lane) {
        assert r in before || r == rows[|rows| - 1];
      }
    }
  }

  // ----- the whole fold ------------------------------------------------------------------------

  function InOrder(rows: seq<Row>, k: string): seq<Row> {
    StableSort(Group(rows, k), Began)
  }

  function IdealAll(keys: seq<string>, rows: seq<Row>, w: int): seq<Campaign>
    requires 0 <= w
  {
    if keys == [] then []
    else
      var k := keys[|keys| - 1];
      IdealAll(keys[..|keys| - 1], rows, w) + IdealWaves(k, InOrder(rows, k), w)
  }

  lemma {:induction false} AllWavesExactly(keys: seq<string>, rows: seq<Row>, w: int)
    requires 0 <= w <= MAX_INT64
    ensures AllWaves(keys, rows, w)
            == if AnyOverflows(IdealAll(keys, rows, w), w) then None else Some(IdealAll(keys, rows, w))
    decreases |keys|
  {
    if keys != [] {
      var k := keys[|keys| - 1];
      var before, last := IdealAll(keys[..|keys| - 1], rows, w), IdealWaves(k, InOrder(rows, k), w);
      AllWavesExactly(keys[..|keys| - 1], rows, w);
      WavesExactly(k, InOrder(rows, k), w);
      assert AnyOverflows(before + last, w) <==> AnyOverflows(before, w) || AnyOverflows(last, w) by {
        forall c <- before ensures c in before + last {
        }
        forall c <- last ensures c in before + last {
        }
      }
    }
  }

  /** The fold ends exactly when no campaign starts within a window of the last millisecond, and then it
      is the ideal campaigns, lanes worst first. */
  lemma FoldExactly(rows: seq<Row>, windowNs: Millis)
    ensures var w := WindowMs(windowNs);
            var ideal := IdealAll(Keys(rows), rows, w);
            FoldOf(rows, windowNs) == if AnyOverflows(ideal, w) then Diverges else Campaigns(StableSort(ideal, ByLane))
  {
    AllWavesExactly(Keys(rows), rows, WindowMs(windowNs));
  }

  /** A row stamped at the last millisecond makes the fold run on for ever. */
  lemma LastMillisecondDiverges(r: Row, windowNs: Millis)
    requires r.firstSeen == MAX_INT64 && (windowNs <= 0 || windowNs >= 1_000_000)
    ensures FoldOf([r], windowNs) == Diverges
  {
    var k, w := FoldKey(r), WindowMs(windowNs);
    assert Group([r], k) == Group([], k) + [r];
    assert StableSort([r], Began) == Insert(r, [], Began);
    assert StableSort(Group([r], k), Began) == [r];
    assert [k][..0] == [];
    assert Cut([r], w) == 0;
    assert Waves(k, [r], w).None?;
    assert Keys([r]) == [k] by {
      assert [r][..0] == [];
    }
    assert AllWaves([k], [r], w).None?;
  }

  // ----- conservation --------------------------------------------------------------------------

  predicate Distinct(keys: seq<string>) {
    forall i, j | 0 <= i < j < |keys| :: keys[i] != keys[j]
  }

  lemma {:induction false} KeysListOnce(rows: seq<Row>)
    ensures Distinct(Keys(rows))
    ensures forall k :: k !in Keys(rows) ==> Group(rows, k) == []
    decreases |rows|
  {
    if rows != [] {
      KeysListOnce(rows[..|rows| - 1]);
    }
  }

  function Gathered(keys: seq<string>, rows: seq<Row>): multiset<Row> {
    if keys == [] then multiset{}
    else Gathered(keys[..|keys| - 1], rows) + multiset(Group(rows, keys[|keys| - 1]))
  }

  lemma GroupGrows(rows: seq<Row>, r: Row, k: string)
    ensures Group(rows + [r], k) == Group(rows, k) + (if FoldKey(r) == k then [r] else [])
    ensures multiset(Group(rows + [r], k))
            == multiset(Group(rows, k)) + (if FoldKey(r) == k then multiset{r} else multiset{})
  {
    assert (rows + [r])[..|rows|] == rows;
  }

  lemma {:induction false} GatheredSame(keys: seq<string>, rows: seq<Row>, r: Row)
    requires FoldKey(r) !in keys
    ensures Gathered(keys, rows + [r]) == Gathered(keys, rows)
    decreases |keys|
  {
    if keys != [] {
      GatheredSame(keys[..|keys| - 1], rows, r);
      GroupGrows(rows, r, keys[|keys| - 1]);
    }
  }

  lemma {:induction false} GatheredGrows(keys: seq<string>, rows: seq<Row>, r: Row)
    requires Distinct(keys) && FoldKey(r) in keys
    ensures Gathered(keys, rows + [r]) == Gathered(keys, rows) + multiset{r}
    decreases |keys|
  {
    hide Group;
    var k, rest := keys[|keys| - 1], keys[..|keys| - 1];
    GroupGrows(rows, r, k);
    if k == FoldKey(r) {
      GatheredSame(rest, rows, r);
    } else {
      GatheredGrows(rest, rows, r);
    }
  }

  lemma GatheredStep(rows: seq<Row>, r: Row)
    requires Gathered(Keys(rows), rows) == multiset(rows)
    ensures Gathered(Keys(rows + [r]), rows + [r]) == multiset(rows) + multiset{r}
  {
    var keys, k := Keys(rows), FoldKey(r);
    KeysListOnce(rows);
    assert (rows + [r])[..|rows|] == rows;
    if k in keys {
      GatheredGrows(keys, rows, r);
    } else {
      GatheredSame(keys, rows, r);
      GroupGrows(rows, r, k);
      assert (keys + [k])[..|keys|] == keys;
      assert Gathered(keys + [k], rows + [r]) == Gathered(keys, rows + [r]) + multiset(Group(rows + [r], k));
    }
  }

  lemma Rejoined(rows: seq<Row>, before: seq<Row>, r: Row)
    requires rows != [] && before == rows[..|rows| - 1] && r == rows[|rows| - 1]
    ensures rows == before + [r] && multiset(rows) == multiset(before) + multiset{r}
  {
    assert rows == before + [r];
  }

  lemma {:induction false} GatheredAll(rows: seq<Row>)
    ensures Gathered(Keys(rows), rows) == multiset(rows)
    decreases |rows|
  {
    if rows != [] {
      var before, r := rows[..|rows| - 1], rows[|rows| - 1];
      GatheredAll(before);
      GatheredStep(before, r);
      Rejoined(rows, before, r);
    }
  }

  lemma {:induction false} FlatConcat(a: seq<Campaign>, b: seq<Campaign>)
    ensures Flat(a + b) == Flat(a) + Flat(b)
    decreases |a|
  {
    if a == [] {
      assert a + b == b;
    } else {
      FlatConcat(a[1..], b);
      assert (a + b)[1..] == a[1..] + b;
    }
  }

  lemma {:induction false} IdealAllFlat(keys: seq<string>, rows: seq<Row>, w: int)
    requires 0 <= w
    ensures multiset(Flat(IdealAll(keys, rows, w))) == Gathered(keys, rows)
    decreases |keys|
  {
    if keys != [] {
      var k, rest := keys[|keys| - 1], keys[..|keys| - 1];
      IdealAllFlat(rest, rows, w);
      FlatConcat(IdealAll(rest, rows, w), IdealWaves(k, InOrder(rows, k), w));
      WavesFlat(k, InOrder(rows, k), w);
      SortIsStable(Group(rows, k), Began);
    }
  }

  lemma {:induction false} FlatInsert(c: Campaign, s: seq<Campaign>)
    ensures multiset(Flat(Insert(c, s, ByLane))) == multiset(c.rows) + multiset(Flat(s))
    decreases |s|
  {
    if s == [] || ByLane(c) <= ByLane(s[0]) {
      assert ([c] + s)[1..] == s;
    } else {
      FlatInsert(c, s[1..]);
      assert ([s[0]] + Insert(c, s[1..], ByLane))[1..] == Insert(c, s[1..], ByLane);
    }
  }

  lemma {:induction false} FlatSort(s: seq<Campaign>)
    ensures multiset(Flat(StableSort(s, ByLane))) == multiset(Flat(s))
    decreases |s|
  {
    if s != [] {
      FlatSort(s[1..]);
      FlatInsert(s[0], StableSort(s[1..], ByLane));
    }
  }

  /** Every row is in exactly one campaign, as often as it came in; lanes go worst first, and campaigns
      of one lane keep the order their keys and starts gave them. */
  lemma FoldConserves(rows: seq<Row>, windowNs: Millis)
    requires FoldOf(rows, windowNs).Campaigns?
    ensures var list := FoldOf(rows, windowNs).list;
            && multiset(Flat(list)) == multiset(rows)
            && Sorted(list, ByLane)
            && forall lane ::
                 Only(list, ByLane, lane) == Only(IdealAll(Keys(rows), rows, WindowMs(windowNs)), ByLane, lane)
  {
    var w := WindowMs(windowNs);
    var ideal := IdealAll(Keys(rows), rows, w);
    FoldExactly(rows, windowNs);
    IdealAllFlat(Keys(rows), rows, w);
    GatheredAll(rows);
    FlatSort(ideal);
    SortIsStable(ideal, ByLane);
  }

  // ----- one key's campaigns in the fold -------------------------------------------------------

  function ForKey(waves: seq<Campaign>, k: string): seq<Campaign> {
    if waves == [] then [] else (if waves[0].technique == k then [waves[0]] else []) + ForKey(waves[1..], k)
  }

  lemma {:induction false} ForKeyConcat(a: seq<Campaign>, b: seq<Campaign>, k: string)
    ensures ForKey(a + b, k) == ForKey(a, k) + ForKey(b, k)
    decreases |a|
  {
    if a == [] {
      assert a + b == b;
    } else {
      ForKeyConcat(a[1..], b, k);
      ForKeyStep(a + b, k);
      ForKeyStep(a, k);
      hide ForKey;
      assert (a + b)[0] == a[0] && (a + b)[1..] == a[1..] + b;
      var first := if a[0].technique == k then [a[0]] else [];
      assert first + (ForKey(a[1..], k) + ForKey(b, k)) == (first + ForKey(a[1..], k)) + ForKey(b, k);
    }
  }

  lemma ForKeyStep(waves: seq<Campaign>, k: string)
    requires waves != []
    ensures ForKey(waves, k) == (if waves[0].technique == k then [waves[0]] else []) + ForKey(waves[1..], k)
  {
  }

  lemma {:induction false} ForKeyAll(waves: seq<Campaign>, k: string, l: string)
    requires forall c <- waves :: c.technique == l
    ensures ForKey(waves, k) == if k == l then waves else []
    decreases |waves|
  {
    if waves != [] {
      ForKeyAll(waves[1..], k, l);
      assert waves == [waves[0]] + waves[1..];
    }
  }

  lemma ForKeyAppended(before: seq<Campaign>, l: string, rows: seq<Row>, w: int, k: string)
    requires 0 <= w
    ensures ForKey(before + IdealWaves(l, rows, w), k)
            == ForKey(before, k) + (if l == k then IdealWaves(l, rows, w) else [])
  {
    WavesStart(l, rows, w);
    ForKeyAll(IdealWaves(l, rows, w), k, l);
    ForKeyConcat(before, IdealWaves(l, rows, w), k);
  }

  lemma {:induction false} IdealAllWithout(keys: seq<string>, rows: seq<Row>, w: int, k: string)
    requires 0 <= w && k !in keys
    ensures ForKey(IdealAll(keys, rows, w), k) == []
    decreases |keys|
  {
    if keys != [] {
      var l, rest := keys[|keys| - 1], keys[..|keys| - 1];
      IdealAllWithout(rest, rows, w, k);
      ForKeyAppended(IdealAll(rest, rows, w), l, InOrder(rows, l), w, k);
    }
  }

  lemma {:induction false} IdealAllForKey(keys: seq<string>, rows: seq<Row>, w: int, k: string)
    requires 0 <= w && Distinct(keys) && k in keys
    ensures ForKey(IdealAll(keys, rows, w), k) == IdealWaves(k, InOrder(rows, k), w)
    decreases |keys|
  {
    var l, rest := keys[|keys| - 1], keys[..|keys| - 1];
    ForKeyAppended(IdealAll(rest, rows, w), l, InOrder(rows, l), w, k);
    if l == k {
      IdealAllWithout(rest, rows, w, k);
    } else {
      IdealAllForKey(rest, rows, w, k);
    }
  }

  lemma {:induction false} ForKeyInsert(c: Campaign, s: seq<Campaign>, k: string)
    ensures multiset(ForKey(Insert(c, s, ByLane), k))
            == (if c.technique == k then multiset{c} else multiset{}) + multiset(ForKey(s, k))
    decreases |s|
  {
    if s == [] || ByLane(c) <= ByLane(s[0]) {
      assert ([c] + s)[1..] == s;
    } else {
      ForKeyInsert(c, s[1..], k);
      assert ([s[0]] + Insert(c, s[1..], ByLane))[1..] == Insert(c, s[1..], ByLane);
    }
  }

  lemma {:induction false} ForKeySort(s: seq<Campaign>, k: string)
    ensures multiset(ForKey(StableSort(s, ByLane), k)) == multiset(ForKey(s, k))
    decreases |s|
  {
    if s != [] {
      ForKeySort(s[1..], k);
      ForKeyInsert(s[0], StableSort(s[1..], ByLane), k);
    }
  }

  /** The campaigns of one key are its rows, in stamp order with ties as they came, cut into windows. */
  lemma CampaignsOfKey(rows: seq<Row>, windowNs: Millis, k: string)
    requires FoldOf(rows, windowNs).Campaigns? && k in Keys(rows)
    ensures var waves := IdealWaves(k, InOrder(rows, k), WindowMs(windowNs));
            && multiset(ForKey(FoldOf(rows, windowNs).list, k)) == multiset(waves)
            && Flat(waves) == InOrder(rows, k) && Sorted(InOrder(rows, k), Began)
            && forall t :: Only(InOrder(rows, k), Began, t) == Only(Group(rows, k), Began, t)
  {
    var w := WindowMs(windowNs);
    FoldExactly(rows, windowNs);
    KeysListOnce(rows);
    IdealAllForKey(Keys(rows), rows, w, k);
    ForKeySort(IdealAll(Keys(rows), rows, w), k);
    WavesFlat(k, InOrder(rows, k), w);
    SortIsStable(Group(rows, k), Began);
  }

  /** No two of these rows began further apart than the window that was asked for, in its own nanoseconds; a window
      of nothing or less is an hour. */
  predicate Together(rows: seq<Row>, windowNs: Millis) {
    forall a <- rows, b <- rows ::
      (a.firstSeen - b.firstSeen) * 1_000_000 <= if windowNs <= 0 then 3_600_000_000_000 else windowNs
  }

  lemma WindowFits(apartMs: int, windowNs: Millis)
    ensures apartMs <= WindowMs(windowNs)
            <==> apartMs * 1_000_000 <= if windowNs <= 0 then 3_600_000_000_000 else windowNs
  {
  }

  lemma TogetherExactly(rows: seq<Row>, windowNs: Millis)
    ensures Together(rows, windowNs) <==> Within(rows, WindowMs(windowNs))
  {
    forall a <- rows, b <- rows
      ensures a.firstSeen - b.firstSeen <= WindowMs(windowNs) <==>
              (a.firstSeen - b.firstSeen) * 1_000_000 <= if windowNs <= 0 then 3_600_000_000_000 else windowNs
    {
      WindowFits(a.firstSeen - b.firstSeen, windowNs);
    }
  }

  /** A stamped key folds into the fewest windows that hold its rows: each of its campaigns fits the window asked for,
      and no way of sharing the rows out among as wide windows needs fewer. */
  lemma FoldIsOptimal(rows: seq<Row>, windowNs: Millis, k: string, parts: seq<seq<Row>>)
    requires FoldOf(rows, windowNs).Campaigns? && k in Keys(rows) && AllStamped(Group(rows, k))
    requires forall p <- parts :: Together(p, windowNs)
    requires forall r <- Group(rows, k) :: exists p <- parts :: r in p
    ensures |ForKey(FoldOf(rows, windowNs).list, k)| <= |parts|
    ensures forall c <- ForKey(FoldOf(rows, windowNs).list, k) :: Together(c.rows, windowNs)
  {
    hide Together, Within, WindowMs, FoldOf, ForKey, IdealWaves;
    var w, sorted := WindowMs(windowNs), InOrder(rows, k);
    CampaignsOfKey(rows, windowNs, k);
    SortIsStable(Group(rows, k), Began);
    forall r <- sorted ensures r in Group(rows, k) {
      assert r in multiset(sorted);
    }
    forall p <- parts {
      TogetherExactly(p, windowNs);
    }
    assert Covers(parts, sorted, w);
    NoSmallerCover(k, sorted, w, parts);
    WavesSpaced(k, sorted, w);
    var waves := IdealWaves(k, sorted, w);
    assert |multiset(ForKey(FoldOf(rows, windowNs).list, k))| == |multiset(waves)|;
    forall c <- ForKey(FoldOf(rows, windowNs).list, k) ensures Together(c.rows, windowNs) {
      assert c in multiset(ForKey(FoldOf(rows, windowNs).list, k));
      assert c in waves;
      TogetherExactly(c.rows, windowNs);
    }
  }

  /** A row with no technique folds with a technique when its own id spells that technique. */
  lemma IdFoldsWithTechnique(a: Row, b: Row)
    requires a.technique == "" && b.technique != ""
    ensures Keys([a, b]) == [a.id] <==> a.id == b.technique
  {
    assert [a, b][..1] == [a] && [a][..0] == [];
    assert Keys([a]) == [a.id];
  }

  /** A campaign of this key: some of its rows, never none, dated by the first and laned by the worst. */
  predicate Proper(c: Campaign) {
    && c.rows != [] && c.startedMs == c.rows[0].firstSeen
    && (forall r <- c.rows :: FoldKey(r) == c.technique && LaneRank(c.lane) <= LaneRank(r.lane))
    && exists r <- c.rows :: LaneRank(r.lane) == LaneRank(c.lane)
  }

  lemma {:induction false} GroupHasKey(rows: seq<Row>, k: string)
    ensures forall r <- Group(rows, k) :: FoldKey(r) == k
    decreases |rows|
  {
    if rows != [] {
      GroupHasKey(rows[..|rows| - 1], k);
    }
  }

  lemma {:induction false} WavesProper(k: string, rows: seq<Row>, w: int)
    requires 0 <= w && forall r <- rows :: FoldKey(r) == k
    ensures forall c <- IdealWaves(k, rows, w) :: Proper(c)
    decreases |rows|
  {
    if rows != [] {
      var n := IdealCut(rows, w);
      WavesProper(k, rows[n..], w);
      WorstIsMin(rows[..n]);
      var worst := WorstLane(rows[..n]);
      assert rows[..n][0] in rows[..n];
      assert exists r <- rows[..n] :: LaneRank(r.lane) == LaneRank(worst);
    }
  }

  lemma {:induction false} IdealAllProper(keys: seq<string>, rows: seq<Row>, w: int)
    requires 0 <= w
    ensures forall c <- IdealAll(keys, rows, w) :: Proper(c)
    decreases |keys|
  {
    if keys != [] {
      var k := keys[|keys| - 1];
      IdealAllProper(keys[..|keys| - 1], rows, w);
      GroupHasKey(rows, k);
      SortIsStable(Group(rows, k), Began);
      forall r <- InOrder(rows, k) ensures FoldKey(r) == k {
        assert r in multiset(InOrder(rows, k));
      }
      WavesProper(k, InOrder(rows, k), w);
    }
  }

  lemma CampaignsAreProper(rows: seq<Row>, windowNs: Millis)
    requires FoldOf(rows, windowNs).Campaigns?
    ensures forall c <- FoldOf(rows, windowNs).list :: Proper(c)
  {
    var ideal := IdealAll(Keys(rows), rows, WindowMs(windowNs));
    FoldExactly(rows, windowNs);
    IdealAllProper(Keys(rows), rows, WindowMs(windowNs));
    SortIsStable(ideal, ByLane);
    forall c <- FoldOf(rows, windowNs).list ensures c in ideal {
      assert c in multiset(FoldOf(rows, windowNs).list);
    }
  }
}
