/**
 The watch loop: polls that may be cancelled, fail or answer, driving snapshots and their differences. What it
 emits is exactly the changes between the reads that answered, whatever failed in between.
 */
module WatchLoop {
  import opened Wrappers
  import opened AlertModel
  import opened Judging
  import opened Watching

  /** One poll's read: the watch was stopped meanwhile, some stream did not answer, or a whole book. */
  datatype Polled = Cancelled | Failed | Answered(book: Book)

  datatype Notice = StoppedAnswering | ReadsRecovered

  type Selects = (Row, Endpoint) -> bool

  /** The rows a selector keeps; no selector keeps them all. */
  function Kept(selects: Option<Selects>, b: Book, rows: seq<Row>): seq<Row> {
    if selects.None? then rows
    else if rows == [] then []
    else
      var r := rows[|rows| - 1];
      Kept(selects, b, rows[..|rows| - 1]) + (if selects.value(r, b.endpoint(r)) then [r] else [])
  }

  /** They keep their order, and are exactly those the selector takes with the row's own endpoint. */
  lemma {:induction false} KeptExactly(selects: Option<Selects>, b: Book, rows: seq<Row>, more: seq<Row>)
    ensures Kept(selects, b, rows + more) == Kept(selects, b, rows) + Kept(selects, b, more)
    ensures forall r :: r in Kept(selects, b, more) <==>
              r in more && (selects.Some? ==> selects.value(r, b.endpoint(r)))
    decreases |more|
  {
    if more == [] {
      assert rows + more == rows;
    } else if selects.Some? {
      var before, r := more[..|more| - 1], more[|more| - 1];
      KeptExactly(selects, b, rows, before);
      assert (rows + more)[..|rows + more| - 1] == rows + before;
      assert more == before + [r];
    }
  }

  function SnapOf(o: Options, selects: Option<Selects>, b: Book): Snapshot {
    var kept := b.(rows := Kept(selects, b, b.rows));
    Filled(SnapRows(o, kept, kept.rows))
  }

  // ----- what the polls alone determine ----------------------------------------------------------

  /** The snapshots of the reads that answered. */
  function Snaps(o: Options, selects: Option<Selects>, polls: seq<Polled>): seq<Snapshot> {
    if polls == [] then []
    else
      var last := polls[|polls| - 1];
      Snaps(o, selects, polls[..|polls| - 1]) + (if last.Answered? then [SnapOf(o, selects, last.book)] else [])
  }

  /** Whether the last poll that came back at all failed. */
  predicate Failing(polls: seq<Polled>) {
    if polls == [] then false
    else
      var last := polls[|polls| - 1];
      last.Failed? || (last.Cancelled? && Failing(polls[..|polls| - 1]))
  }

  /** One notice on each turn into failing, and one on each turn out of it. */
  function Notices(polls: seq<Polled>): seq<Notice> {
    if polls == [] then []
    else
      var before, last := polls[..|polls| - 1], polls[|polls| - 1];
      Notices(before) + (if last.Failed? && !Failing(before) then [StoppedAnswering]
                         else if last.Answered? && Failing(before) then [ReadsRecovered] else [])
  }

  /** The notices take turns, the first telling of a failure, and the last tells how things stand. */
  lemma {:induction false} NoticesAlternate(polls: seq<Polled>)
    ensures var n := Notices(polls);
            && (forall i | 0 <= i < |n| :: n[i] == if i % 2 == 0 then StoppedAnswering else ReadsRecovered)
            && (Failing(polls) <==> |n| % 2 == 1)
            && (polls != [] ==> var before := Notices(polls[..|polls| - 1]); before <= n && |n| <= |before| + 1)
    decreases |polls|
  {
    if polls != [] {
      NoticesAlternate(polls[..|polls| - 1]);
    }
  }

  /** Every snapshot a watch takes is one a reader of its stream can replay. */
  lemma {:induction false} SnapsReplay(o: Options, selects: Option<Selects>, polls: seq<Polled>)
    ensures forall s <- Snaps(o, selects, polls) :: s.Filled? && Consistent(Rows(s))
    decreases |polls|
  {
    if polls != [] {
      SnapsReplay(o, selects, polls[..|polls| - 1]);
      var last := polls[|polls| - 1];
      if last.Answered? {
        var kept := last.book.(rows := Kept(selects, last.book, last.book.rows));
        SnapsAreConsistent(o, kept, kept.rows);
      }
    }
  }

  lemma OnePollMore(o: Options, selects: Option<Selects>, polls: seq<Polled>, read: Polled)
    ensures Snaps(o, selects, polls + [read])
            == if read.Answered? then Snaps(o, selects, polls) + [SnapOf(o, selects, read.book)]
               else Snaps(o, selects, polls)
    ensures Failing(polls + [read]) <==> read.Failed? || (read.Cancelled? && Failing(polls))
    ensures Notices(polls + [read]) ==
            if read.Failed? && !Failing(polls) then Notices(polls) + [StoppedAnswering]
            else if read.Answered? && Failing(polls) then Notices(polls) + [ReadsRecovered] else Notices(polls)
  {
    assert (polls + [read])[..|polls|] == polls;
  }

  /** A first answer to an opening poll is a baseline: nothing has been emitted. */
  lemma NothingYet(o: Options, selects: Option<Selects>, next: Snapshot)
    ensures Snaps(o, selects, []) == [] && Stream([]) == [] && Stream([next]) == []
  {
  }

  /** When signs of life are shown: the baseline by an opening poll that answers, and then by each answer that
      comes a whole beat after the last sign, or after none. */
  function Marks(polls: seq<Polled>, times: seq<int>, beat: int): seq<int>
    requires |polls| == |times|
  {
    if polls == [] then []
    else
      var n := |polls| - 1;
      var before := Marks(polls[..n], times[..n], beat);
      if polls[n].Answered? && (n == 0 || (beat > 0 && (before == [] || times[n] - before[|before| - 1] >= beat)))
      then before + [times[n]] else before
  }

  /** Signs of life are a whole beat apart, and without a beat there is at most the baseline. */
  predicate Apart(marks: seq<int>, beat: int) {
    && (|marks| > 1 ==> beat > 0)
    && forall i, j | 0 <= i < j < |marks| :: marks[i] + beat <= marks[j]
  }

  /** They are apart, each is the time of an answer, and none is overdue: at every answer the last sign is less than
      a beat ago. */
  lemma {:induction false} MarksKeepTheBeat(polls: seq<Polled>, times: seq<int>, beat: int)
    requires |polls| == |times|
    ensures var marks := Marks(polls, times, beat);
            && Apart(marks, beat)
            && (forall m <- marks :: exists i | 0 <= i < |polls| :: polls[i].Answered? && times[i] == m)
            && (beat <= 0 && marks != [] ==> polls[0].Answered? && marks == [times[0]])
            && (polls != [] && polls[|polls| - 1].Answered? && beat > 0 ==>
                  marks != [] && times[|times| - 1] - marks[|marks| - 1] < beat)
    decreases |polls|
  {
    if polls != [] {
      var n := |polls| - 1;
      MarksKeepTheBeat(polls[..n], times[..n], beat);
      var before := Marks(polls[..n], times[..n], beat);
      forall m | m in before ensures exists i | 0 <= i < |polls| :: polls[i].Answered? && times[i] == m {
        var i :| 0 <= i < n && polls[..n][i].Answered? && times[..n][i] == m;
        assert polls[i].Answered? && times[i] == m;
      }
    }
  }

  lemma OneMarkMore(polls: seq<Polled>, times: seq<int>, beat: int, read: Polled, at: int)
    requires |polls| == |times|
    ensures var before := Marks(polls, times, beat);
            Marks(polls + [read], times + [at], beat)
            == if read.Answered? && (polls == [] || (beat > 0 && (before == [] || at - before[|before| - 1] >= beat)))
               then before + [at] else before
    ensures Marks([], [], beat) == []
  {
    assert (polls + [read])[..|polls|] == polls && (times + [at])[..|times|] == times;
  }

  class Watcher {
    const options: Options
    const selects: Option<Selects>
    const beat: int
    var prev: Snapshot
    var failing: bool
    var changes: nat
    var out: seq<Change>
    var notices: seq<Notice>
    var lastBeat: Option<int>
    ghost var marks: seq<int>

    constructor (options: Options, selects: Option<Selects>, beat: int)
      ensures this.options == options && this.selects == selects && this.beat == beat && Follows([], [])
    {
      this.options, this.selects, this.beat := options, selects, beat;
      prev, failing, changes, out, notices, lastBeat := Unfilled, false, 0, [], [], None;
      marks := [];
    }

    /** The watch stands where these polls, and nothing else, put it. */
    ghost predicate Follows(polls: seq<Polled>, times: seq<int>)
      requires |polls| == |times|
      reads this
    {
      var snaps := Snaps(options, selects, polls);
      && prev == (if snaps == [] then Unfilled else snaps[|snaps| - 1])
      && out == Stream(snaps) && changes == |out|
      && failing == Failing(polls) && notices == Notices(polls)
      && marks == Marks(polls, times, beat)
      && lastBeat == (if marks == [] then None else Some(marks[|marks| - 1]))
    }

    predicate DueForBeat(at: int)
      reads this
    {
      beat > 0 && (lastBeat.None? || at - lastBeat.value >= beat)
    }

    method Keep(b: Book) returns (kept: Book)
      ensures kept == b.(rows := Kept(selects, b, b.rows))
    {
      if selects.None? {
        return b;
      }
      var rows := [];
      for i := 0 to |b.rows|
        invariant rows == Kept(selects, b, b.rows[..i])
      {
        assert b.rows[..i + 1][..i] == b.rows[..i];
        if selects.value(b.rows[i], b.endpoint(b.rows[i])) {
          rows := rows + [b.rows[i]];
        }
      }
      assert b.rows[..|b.rows|] == b.rows;
      return b.(rows := rows);
    }

    /** The snapshot of one book, of the rows kept. */
    method Take(b: Book) returns (s: Snapshot)
      ensures s == SnapOf(options, selects, b)
    {
      hide SnapRows, Kept;
      var kept := Keep(b);
      s := Snap(options, kept);
    }

    /** Emits each change in turn. */
    method Emit(next: Snapshot)
      modifies this`out, this`changes
      ensures out == old(out) + DiffOf(prev, next) && changes == old(changes) + |DiffOf(prev, next)|
    {
      hide DiffOf;
      var moved := Diff(prev, next);
      for i := 0 to |moved|
        invariant out == old(out) + moved[..i] && changes == old(changes) + i
      {
        out, changes := out + [moved[i]], changes + 1;
      }
    }

    /** Failure and recovery are each told once, on the turn. */
    method Turn(read: Polled)
      modifies this`failing, this`notices
      ensures failing == (read.Failed? || (read.Cancelled? && old(failing)))
      ensures notices == if read.Failed? && !old(failing) then old(notices) + [StoppedAnswering]
                         else if read.Answered? && old(failing) then old(notices) + [ReadsRecovered] else old(notices)
    {
      if read.Failed? && !failing {
        failing, notices := true, notices + [StoppedAnswering];
      } else if read.Answered? && failing {
        failing, notices := false, notices + [ReadsRecovered];
      }
    }

    /** A quiet watch shows it is alive, a whole beat at least after it last did. */
    method Beat(at: int)
      requires lastBeat == (if marks == [] then None else Some(marks[|marks| - 1]))
      modifies this`lastBeat, this`marks
      ensures lastBeat == (if marks == [] then None else Some(marks[|marks| - 1]))
      ensures marks == if beat > 0 && (old(lastBeat).None? || at - old(lastBeat).value >= beat)
                       then old(marks) + [at] else old(marks)
    {
      if DueForBeat(at) {
        lastBeat, marks := Some(at), marks + [at];
      }
    }

    /** One read, and what moved since the one before that answered. */
    method Poll(first: bool, read: Polled, at: int, ghost polls: seq<Polled>, ghost times: seq<int>)
      requires |polls| == |times| && Follows(polls, times) && first == (polls == [])
      modifies this
      ensures Follows(polls + [read], times + [at])
    {
      hide Snaps, SnapOf, Failing, Notices, Stream, DiffOf, Marks, SnapRows, Kept;
      OnePollMore(options, selects, polls, read);
      OneMarkMore(polls, times, beat, read, at);
      Turn(read);
      if !read.Answered? {
        return;
      }
      var next := Take(read.book);
      ghost var snaps := Snaps(options, selects, polls);
      StreamGrows(snaps, next);
      if first {
        NothingYet(options, selects, next);
        assert snaps + [next] == [next];
        prev, lastBeat, marks := next, Some(at), [at];
        return;
      }
      Emit(next);
      prev := next;
      Beat(at);
    }

    /** A whole watch: the opening poll, then one a tick until it is stopped. */
    method Run(answers: seq<Polled>, times: seq<int>)
      requires |answers| == |times| && Follows([], [])
      modifies this
      ensures Follows(answers, times)
    {
      hide Snaps, Failing, Notices, Stream, Marks;
      for i := 0 to |answers|
        invariant Follows(answers[..i], times[..i])
      {
        Poll(i == 0, answers[i], times[i], answers[..i], times[..i]);
        assert answers[..i] + [answers[i]] == answers[..i + 1] && times[..i] + [times[i]] == times[..i + 1];
      }
      assert answers[..|answers|] == answers && times[..|times|] == times;
    }
  }

  /** One more snapshot adds its difference from the last; the first adds nothing. */
  lemma StreamGrows(snaps: seq<Snapshot>, next: Snapshot)
    ensures Stream(snaps + [next]) == Stream(snaps) + DiffOf(if snaps == [] then Unfilled else snaps[|snaps| - 1], next)
  {
    var more := snaps + [next];
    assert more[..|snaps|] == snaps;
    if snaps != [] {
      hide DiffOf;
      assert more[|snaps| - 1] == snaps[|snaps| - 1] && more[|snaps|] == next;
    }
  }

  /** Whatever fails in between, replaying what a watch emitted over its first answer gives its last. */
  lemma WatchReplays(o: Options, selects: Option<Selects>, polls: seq<Polled>)
    requires Snaps(o, selects, polls) != []
    ensures var snaps := Snaps(o, selects, polls);
            Replay(QueueOf(Rows(snaps[0])), Stream(snaps), true) == QueueOf(Rows(snaps[|snaps| - 1]))
  {
    SnapsReplay(o, selects, polls);
    RunReplays(Snaps(o, selects, polls));
  }
}
