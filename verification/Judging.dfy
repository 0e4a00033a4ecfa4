/**
 What interrupts a person: the verdict on one row, the containment that quiets it, and the three places
 that count the rows that page: the document, the gate and the headline.
 */
module Judging {
  import opened Wrappers
  import opened Text
  import opened AlertModel

  const MS_NS: int := 1_000_000
  const DAY_NS: int := 86_400_000_000_000

  datatype Action = Action(tsMs: Millis, address: string, result: string) {
    /** Case-folded "ok"; the Kelvin sign folds to k as well. */
    predicate Landed() {
      |result| == 2 && result[0] in {'o', 'O'} && result[1] in {'k', 'K', '\U{212A}'}
    }
  }

  datatype Token = Page | Digest | Silent

  datatype Why = NotOpen | ForReview | NeverScored | BelowReview | Severed(at: Millis) | StaleAck | HasIt
               | OfflineUnreached | OfflineNow | StillTrue

  datatype Verdict = Verdict(token: Token, why: Why)

  const NEVER_QUIET: set<string> := {"T1486", "T1490", "T1003", "T1562", "T1070"}

  predicate NeverQuietTechnique(technique: string) {
    var t := Upper(TrimSpace(technique));
    var dot := IndexOf(t, '.');
    (if dot > 0 then t[..dot] else t) in NEVER_QUIET
  }

  /** A containment that landed on the row's endpoint, at or after the finding began and not in the future. */
  predicate Severs(parse: Parse, a: Action, r: Row, nowNs: int) {
    && a.Landed() && SameAddress(parse, a.address, r.address)
    && !(r.firstSeen > 0 && a.tsMs < r.firstSeen) && a.tsMs <= nowNs / MS_NS
  }

  /** The latest such action; of several at one time, the first in the trail. */
  function SeveredAfter(parse: Parse, trail: seq<Action>, r: Row, nowNs: int): Option<Action> {
    if trail == [] then None
    else
      var best, a := SeveredAfter(parse, trail[..|trail| - 1], r, nowNs), trail[|trail| - 1];
      if Severs(parse, a, r, nowNs) && (best.None? || a.tsMs > best.value.tsMs) then Some(a) else best
  }

  method FindSevered(parse: Parse, trail: seq<Action>, r: Row, nowNs: int) returns (best: Option<Action>)
    ensures best == SeveredAfter(parse, trail, r, nowNs)
  {
    best := None;
    for i := 0 to |trail|
      invariant best == SeveredAfter(parse, trail[..i], r, nowNs)
    {
      assert trail[..i + 1][..i] == trail[..i];
      var a := trail[i];
      if a.Landed() && SameAddress(parse, a.address, r.address)
         && !(r.firstSeen > 0 && a.tsMs < r.firstSeen) && a.tsMs <= nowNs / MS_NS
         && (best.None? || a.tsMs > best.value.tsMs)
      {
        best := Some(a);
      }
    }
    assert trail[..|trail|] == trail;
  }

  /** The library's difference of two times saturates at the ends of a 64-bit count of nanoseconds. */
  function Since(nowNs: int, atMs: Millis): int {
    var d := nowNs - atMs * MS_NS;
    if d > MAX_INT64 then MAX_INT64 else if d < MIN_INT64 then MIN_INT64 else d
  }

  function AckAge(r: Row, nowNs: int): (age: int)
    ensures age >= 0
  {
    if r.ackAt.None? || r.ackAt.value <= 0 || Since(nowNs, r.ackAt.value) < 0 then 0 else Since(nowNs, r.ackAt.value)
  }

  function Judge(parse: Parse, r: Row, e: Endpoint, trail: seq<Action>, nowNs: int, staleAckNs: Millis): Verdict {
    if r.state != "" && r.state != STATE_OPEN then Verdict(Silent, NotOpen)
    else if r.lane == REVIEW then Verdict(Digest, ForReview)
    else if r.lane == UNSCORED then Verdict(Digest, NeverScored)
    else if r.lane != ACT_NOW then Verdict(Silent, BelowReview)
    else
      var severed := SeveredAfter(parse, trail, r, nowNs);
      if severed.Some? then Verdict(Digest, Severed(severed.value.tsMs))
      else if r.Held() then
        if staleAckNs > 0 && AckAge(r, nowNs) > staleAckNs then Verdict(Page, StaleAck) else Verdict(Digest, HasIt)
      else if e.Offline() then
        if NeverQuietTechnique(r.technique) then Verdict(Page, OfflineUnreached) else Verdict(Digest, OfflineNow)
      else Verdict(Page, StillTrue)
  }

  // ----- a book, and who counts what pages ------------------------------------------------------

  /** One complete read; `endpoint` is the lookup the book makes over its endpoints. */
  datatype Book = Book(rows: seq<Row>, endpoint: Row -> Endpoint, trail: seq<Action>, nowNs: int)

  predicate Pages(parse: Parse, b: Book, r: Row, staleAckNs: Millis) {
    Judge(parse, r, b.endpoint(r), b.trail, b.nowNs, staleAckNs).token == Page
  }

  /** The rows that page, in order. */
  function Paging(parse: Parse, b: Book, rows: seq<Row>, staleAckNs: Millis): seq<Row> {
    if rows == [] then []
    else
      Paging(parse, b, rows[..|rows| - 1], staleAckNs)
      + (if Pages(parse, b, rows[|rows| - 1], staleAckNs) then [rows[|rows| - 1]] else [])
  }

  /** Rendering takes a stale-acknowledgement bound that is not positive as a day. */
  function RenderBound(staleAckNs: Millis): Millis {
    if staleAckNs <= 0 then DAY_NS else staleAckNs
  }

  /** The count the document carries. */
  method CountPaging(parse: Parse, b: Book, staleAckNs: Millis) returns (n: nat)
    ensures n == |Paging(parse, b, b.rows, RenderBound(staleAckNs))|
  {
    n := 0;
    for i := 0 to |b.rows|
      invariant n == |Paging(parse, b, b.rows[..i], RenderBound(staleAckNs))|
    {
      assert b.rows[..i + 1][..i] == b.rows[..i];
      if Judge(parse, b.rows[i], b.endpoint(b.rows[i]), b.trail, b.nowNs, RenderBound(staleAckNs)).token == Page {
        n := n + 1;
      }
    }
    assert b.rows[..|b.rows|] == b.rows;
  }

  datatype Gate = Clear | Asking(rows: seq<Row>) | CouldNotTell

  /** The gate uses the bound as it was given, and never passes on an incomplete read. */
  method Check(parse: Parse, b: Book, complete: bool, staleAckNs: Millis) returns (gate: Gate)
    ensures gate == if !complete then CouldNotTell
                    else if Paging(parse, b, b.rows, staleAckNs) == [] then Clear
                    else Asking(Paging(parse, b, b.rows, staleAckNs))
  {
    if !complete {
      return CouldNotTell;
    }
    var paging := [];
    for i := 0 to |b.rows|
      invariant paging == Paging(parse, b, b.rows[..i], staleAckNs)
    {
      assert b.rows[..i + 1][..i] == b.rows[..i];
      if Judge(parse, b.rows[i], b.endpoint(b.rows[i]), b.trail, b.nowNs, staleAckNs).token == Page {
        paging := paging + [b.rows[i]];
      }
    }
    assert b.rows[..|b.rows|] == b.rows;
    return if paging == [] then Clear else Asking(paging);
  }

  // ----- the headline ---------------------------------------------------------------------------------

  /** A row somebody has already: it waits, and is one the engine ranks for attention. */
  predicate Waits(parse: Parse, b: Book, r: Row, staleAckNs: Millis) {
    && Judge(parse, r, b.endpoint(r), b.trail, b.nowNs, staleAckNs).token == Digest
    && r.Held() && (r.lane == ACT_NOW || r.lane == REVIEW)
  }

  /** The rows that wait on somebody, in order. */
  function Waiting(parse: Parse, b: Book, rows: seq<Row>, staleAckNs: Millis): seq<Row> {
    if rows == [] then []
    else
      Waiting(parse, b, rows[..|rows| - 1], staleAckNs)
      + (if Waits(parse, b, rows[|rows| - 1], staleAckNs) then [rows[|rows| - 1]] else [])
  }

  /** Nothing to say, or how many want a decision, how many more wait, and on whom when it is one person. */
  datatype Headline = Nothing | Wants(decisions: nat, waiting: nat, holder: string)

  /** One person's name in any case, or nobody's. */
  method SoleHolder(fold: string -> string, rows: seq<Row>) returns (who: string)
    requires forall r <- rows :: r.Held()
    ensures who == if rows != [] && forall r <- rows :: fold(r.Holder()) == fold(rows[0].Holder())
                   then rows[0].Holder() else ""
  {
    who := "";
    for i := 0 to |rows|
      invariant forall r <- rows[..i] :: fold(r.Holder()) == fold(rows[0].Holder())
      invariant who == if i == 0 then "" else rows[0].Holder()
    {
      assert rows[0] in rows && rows[i] in rows && rows[..i + 1] == rows[..i] + [rows[i]];
      var h := rows[i].Holder();
      if who == "" {
        who := h;
      } else if fold(who) != fold(h) {
        return "";
      }
    }
    assert rows[..|rows|] == rows;
  }

  lemma {:induction false} WaitingIsHeld(parse: Parse, b: Book, rows: seq<Row>, staleAckNs: Millis)
    ensures forall r <- Waiting(parse, b, rows, staleAckNs) :: r.Held()
    decreases |rows|
  {
    if rows != [] {
      WaitingIsHeld(parse, b, rows[..|rows| - 1], staleAckNs);
    }
  }

  /** The sentence at the top: it counts what the document counts, and says nothing when that is none. */
  method SayHeadline(parse: Parse, fold: string -> string, b: Book, staleAckNs: Millis) returns (h: Headline)
    ensures var paging := Paging(parse, b, b.rows, RenderBound(staleAckNs));
            var waiting := Waiting(parse, b, b.rows, RenderBound(staleAckNs));
            if paging == [] then h == Nothing
            else h.Wants? && h.decisions == |paging| && h.waiting == |waiting|
                 && h.holder == if waiting != [] && forall r <- waiting :: fold(r.Holder()) == fold(waiting[0].Holder())
                                then waiting[0].Holder() else ""
  {
    hide Judge;
    var bound := RenderBound(staleAckNs);
    var paging, waiting := [], [];
    for i := 0 to |b.rows|
      invariant paging == Paging(parse, b, b.rows[..i], bound)
      invariant waiting == Waiting(parse, b, b.rows[..i], bound)
    {
      assert b.rows[..i + 1][..i] == b.rows[..i];
      var r := b.rows[i];
      var v := Judge(parse, r, b.endpoint(r), b.trail, b.nowNs, bound);
      if v.token == Page {
        paging := paging + [r];
      } else if v.token == Digest && r.Held() && (r.lane == ACT_NOW || r.lane == REVIEW) {
        waiting := waiting + [r];
      }
    }
    assert b.rows[..|b.rows|] == b.rows;
    if paging == [] {
      return Nothing;
    }
    WaitingIsHeld(parse, b, b.rows, bound);
    var who := SoleHolder(fold, waiting);
    return Wants(|paging|, |waiting|, who);
  }

  // ----- what pages, told in the rows' and the actions' own fields -----------------------------------

  /** Some action of the trail says ok, in any case, of the row's own address, not before a beginning that is
      stamped and not after now. */
  ghost predicate Contained(parse: Parse, trail: seq<Action>, r: Row, nowNs: int) {
    exists a <- trail ::
      && a.result in {"ok", "Ok", "oK", "OK", "o\U{212A}", "O\U{212A}"}
      && parse(a.address).Some? && parse(r.address) == parse(a.address)
      && (0 < r.firstSeen ==> r.firstSeen <= a.tsMs) && a.tsMs * 1_000_000 <= nowNs
  }

  /** Somebody took it at a time that is stamped, and longer ago than the bound. */
  predicate Unmoved(r: Row, nowNs: int, staleAckNs: Millis) {
    && r.ackAt.Some? && 0 < r.ackAt.value
    && 0 < staleAckNs < MAX_INT64 && staleAckNs < nowNs - r.ackAt.value * 1_000_000
  }

  /** One of the five techniques or a sub-technique of one, in any case and with any space around it. */
  ghost predicate Loud(technique: string) {
    exists base | base in {"T1003", "T1070", "T1486", "T1490", "T1562"} ::
      Upper(TrimSpace(technique)) == base || base + "." <= Upper(TrimSpace(technique))
  }

  lemma {:induction false} ContainedExactly(parse: Parse, trail: seq<Action>, r: Row, nowNs: int)
    ensures Contained(parse, trail, r, nowNs) <==> SeveredAfter(parse, trail, r, nowNs).Some?
  {
    SeveredIsLatest(parse, trail, r, nowNs);
    forall a <- trail
      ensures Severs(parse, a, r, nowNs) <==>
              && a.result in {"ok", "Ok", "oK", "OK", "o\U{212A}", "O\U{212A}"}
              && parse(a.address).Some? && parse(r.address) == parse(a.address)
              && (0 < r.firstSeen ==> r.firstSeen <= a.tsMs) && a.tsMs * 1_000_000 <= nowNs
    {
      OkExactly(a);
    }
  }

  lemma OkExactly(a: Action)
    ensures a.Landed() <==> a.result in {"ok", "Ok", "oK", "OK", "o\U{212A}", "O\U{212A}"}
  {
    if |a.result| == 2 {
      assert a.result == [a.result[0], a.result[1]];
    }
  }

  lemma UnmovedExactly(r: Row, nowNs: int, staleAckNs: Millis)
    ensures Unmoved(r, nowNs, staleAckNs) <==> 0 < staleAckNs < AckAge(r, nowNs)
  {
  }

  lemma LoudExactly(technique: string)
    ensures Loud(technique) <==> NeverQuietTechnique(technique)
  {
    hide Upper, TrimSpace;
    var t := Upper(TrimSpace(technique));
    var dot := IndexOf(t, '.');
    if base :| base in NEVER_QUIET && base + "." <= t {
      ListedIsUpper(base, 0);
      DotAfter(base, t);
    }
    if dot > 0 && t[..dot] in NEVER_QUIET {
      assert t[..dot] + "." == t[..dot + 1];
    }
    if t in NEVER_QUIET {
      NoDotIn(t);
    }
  }

  lemma NoDotIn(base: string)
    requires base in NEVER_QUIET
    ensures IndexOf(base, '.') == -1
  {
    hide NEVER_QUIET;
    var dot := IndexOf(base, '.');
    if dot >= 0 {
      ListedIsUpper(base, 0);
      ListedIsUpper(base, dot);
    }
  }

  lemma DotAfter(base: string, t: string)
    requires base in NEVER_QUIET && base + "." <= t
    ensures IndexOf(t, '.') == |base| && t[..|base|] == base
  {
    hide NEVER_QUIET;
    NoDotIn(base);
    assert t[|base|] == (base + ".")[|base|] == '.';
    assert t[..|base|] == base;
  }

  /** A row pages exactly when it is open and banded act-now, nothing that landed on its endpoint since it began
      contains it, and either its holder has not moved for too long, or nobody holds it and its endpoint is not
      known to be offline or its technique may never go quiet. */
  lemma PagesExactly(parse: Parse, b: Book, r: Row, staleAckNs: Millis)
    ensures Pages(parse, b, r, staleAckNs) <==>
      && r.state in {"", "open"} && r.lane == "act-now" && !Contained(parse, b.trail, r, b.nowNs)
      && if r.ack != "" || r.assignee != "" then Unmoved(r, b.nowNs, staleAckNs)
         else b.endpoint(r).known && b.endpoint(r).connectivity == "offline" ==> Loud(r.technique)
  {
    hide Contained, Unmoved, Loud, NeverQuietTechnique, AckAge, SeveredAfter;
    ContainedExactly(parse, b.trail, r, b.nowNs);
    UnmovedExactly(r, b.nowNs, staleAckNs);
    LoudExactly(r.technique);
  }

  /** A row waits on somebody exactly when it is open and held, and either is for review, or is act-now and
      contained or its holder has not gone quiet for too long. */
  lemma WaitsExactly(parse: Parse, b: Book, r: Row, staleAckNs: Millis)
    ensures Waits(parse, b, r, staleAckNs) <==>
      && r.state in {"", "open"} && (r.ack != "" || r.assignee != "")
      && (r.lane == "review"
          || (r.lane == "act-now" && (Contained(parse, b.trail, r, b.nowNs) || !Unmoved(r, b.nowNs, staleAckNs))))
  {
    hide Contained, Unmoved, NeverQuietTechnique, AckAge, SeveredAfter;
    ContainedExactly(parse, b.trail, r, b.nowNs);
    UnmovedExactly(r, b.nowNs, staleAckNs);
  }

  /** A row is left out altogether exactly when it is not open or is banded below review; every other one that
      does not page is in the digest. */
  lemma SilentExactly(parse: Parse, b: Book, r: Row, staleAckNs: Millis)
    ensures Judge(parse, r, b.endpoint(r), b.trail, b.nowNs, staleAckNs).token == Silent
            <==> r.state !in {"", "open"} || r.lane !in {"act-now", "review", ""}
  {
  }

  /** The list keeps the rows' order, and holds exactly the rows that page. */
  lemma {:induction false} PagingIsExact(parse: Parse, b: Book, rows: seq<Row>, more: seq<Row>, staleAckNs: Millis)
    ensures Paging(parse, b, rows + more, staleAckNs)
            == Paging(parse, b, rows, staleAckNs) + Paging(parse, b, more, staleAckNs)
    ensures forall r :: r in Paging(parse, b, more, staleAckNs) <==> r in more && Pages(parse, b, r, staleAckNs)
    decreases |more|
  {
    hide Pages;
    if more == [] {
      assert rows + more == rows;
    } else {
      var before, r := more[..|more| - 1], more[|more| - 1];
      PagingIsExact(parse, b, rows, before, staleAckNs);
      assert (rows + more)[..|rows + more| - 1] == rows + before;
      assert more == before + [r];
    }
  }

  /** The list keeps the rows' order, and holds exactly the rows that wait. */
  lemma {:induction false} WaitingIsExact(parse: Parse, b: Book, rows: seq<Row>, more: seq<Row>, staleAckNs: Millis)
    ensures Waiting(parse, b, rows + more, staleAckNs)
            == Waiting(parse, b, rows, staleAckNs) + Waiting(parse, b, more, staleAckNs)
    ensures forall r :: r in Waiting(parse, b, more, staleAckNs) <==> r in more && Waits(parse, b, r, staleAckNs)
    decreases |more|
  {
    hide Waits;
    if more == [] {
      assert rows + more == rows;
    } else {
      var before, r := more[..|more| - 1], more[|more| - 1];
      WaitingIsExact(parse, b, rows, before, staleAckNs);
      assert (rows + more)[..|rows + more| - 1] == rows + before;
      assert more == before + [r];
    }
  }

  /** A trail in which nothing landed, whatever else it says, quiets nothing: the rows that page are those that
      page when there is no trail. */
  lemma {:induction false} OnlyLandedQuiets(parse: Parse, b: Book, rows: seq<Row>, staleAckNs: Millis)
    requires forall a <- b.trail :: a.result !in {"ok", "Ok", "oK", "OK", "o\U{212A}", "O\U{212A}"}
    ensures Paging(parse, b, rows, staleAckNs) == Paging(parse, b.(trail := []), rows, staleAckNs)
    decreases |rows|
  {
    hide Unmoved, Loud, Pages;
    if rows != [] {
      OnlyLandedQuiets(parse, b, rows[..|rows| - 1], staleAckNs);
      PagesExactly(parse, b, rows[|rows| - 1], staleAckNs);
      PagesExactly(parse, b.(trail := []), rows[|rows| - 1], staleAckNs);
    }
  }

  /** A containment that failed leaves its row paging; one that landed does not. */
  lemma FailedContainmentPages(result: string)
    requires result in {"failed", "ok"}
    ensures var r := Row("", "x", "", "T1486", "", "act-now", "open", None, 5, "", None, "");
            var b := Book([r], row => Endpoint(true, "online", "", "", ""), [Action(10, "x", result)], 20_000_000);
            Paging(s => Some(1), b, b.rows, DAY_NS) == if result == "failed" then [r] else []
  {
    hide Unmoved, Loud, Pages;
    var r := Row("", "x", "", "T1486", "", "act-now", "open", None, 5, "", None, "");
    var b := Book([r], row => Endpoint(true, "online", "", "", ""), [Action(10, "x", result)], 20_000_000);
    assert b.trail[0] in b.trail && b.rows[..0] == [];
    PagesExactly(s => Some(1), b, r, DAY_NS);
  }

  /** The listed techniques are capitals and digits. */
  lemma ListedIsUpper(base: string, i: nat)
    requires base in NEVER_QUIET && i < 5
    ensures |base| == 5 && UpperChar(base[i]) == base[i] && base[i] != '.'
  {
  }

  /** What is before the dot is the base, in upper case as it is. */
  lemma BaseStaysUpper(base: string, sub: string)
    requires base in NEVER_QUIET
    ensures |base| == 5 && Upper(base + "." + sub)[..5] == base && IndexOf(Upper(base + "." + sub), '.') == 5
  {
    var t := base + "." + sub;
    ListedIsUpper(base, 0);
    hide NEVER_QUIET, Upper, IndexOf;
    forall i | 0 <= i < 5 ensures Upper(t)[i] == base[i] && base[i] != '.' {
      ListedIsUpper(base, i);
      UpperAt(t, i);
      assert t[i] == base[i];
    }
    UpperAt(t, 5);
    assert t[5] == '.';
  }

  /** A sub-technique of one that may never go quiet may not either, whatever its number. */
  lemma SubTechniquesNeverQuiet(base: string, sub: string)
    requires base in NEVER_QUIET && Trimmed(base + "." + sub)
    ensures NeverQuietTechnique(base + "." + sub)
  {
    hide TrimSpace, Upper, Trimmed, IndexOf, NEVER_QUIET;
    TrimmedStays(base + "." + sub);
    BaseStaysUpper(base, sub);
  }

  // ----- containment only quiets -----------------------------------------------------------------

  /** Found exactly when some action severs, and then the latest of those; where in the trail they stand
      decides neither. */
  lemma {:induction false} SeveredIsLatest(parse: Parse, trail: seq<Action>, r: Row, nowNs: int)
    ensures var best := SeveredAfter(parse, trail, r, nowNs);
            && (best.Some? <==> exists a <- trail :: Severs(parse, a, r, nowNs))
            && (best.Some? ==> best.value in trail && Severs(parse, best.value, r, nowNs)
                               && forall a <- trail :: Severs(parse, a, r, nowNs) ==> a.tsMs <= best.value.tsMs)
    decreases |trail|
  {
    if trail != [] {
      SeveredIsLatest(parse, trail[..|trail| - 1], r, nowNs);
      assert trail == trail[..|trail| - 1] + [trail[|trail| - 1]];
    }
  }

  /** Of several at one time it is the first: every earlier one that severs is older. */
  lemma {:induction false} SeveredIsFirst(parse: Parse, trail: seq<Action>, r: Row, nowNs: int)
    ensures var best := SeveredAfter(parse, trail, r, nowNs);
            best.Some? ==> exists i | 0 <= i < |trail| ::
              && trail[i] == best.value
              && forall j | 0 <= j < i :: Severs(parse, trail[j], r, nowNs) ==> trail[j].tsMs < best.value.tsMs
    decreases |trail|
  {
    if trail != [] {
      var before, a := trail[..|trail| - 1], trail[|trail| - 1];
      SeveredIsFirst(parse, before, r, nowNs);
      SeveredIsLatest(parse, before, r, nowNs);
      var best, earlier := SeveredAfter(parse, trail, r, nowNs), SeveredAfter(parse, before, r, nowNs);
      if best.Some? && best == earlier {
        var i :| 0 <= i < |before| && before[i] == best.value
                 && forall j | 0 <= j < i :: Severs(parse, before[j], r, nowNs) ==> before[j].tsMs < best.value.tsMs;
        assert trail[i] == best.value;
        assert forall j | 0 <= j < i :: trail[j] == before[j];
      } else if best.Some? {
        assert forall j | 0 <= j < |before| :: trail[j] == before[j] && before[j] in before;
        assert trail[|trail| - 1] == best.value;
      }
    }
  }

  /** Two trails with the same actions, in any order, sever a row alike and at the same time. */
  lemma SeveredAnyOrder(parse: Parse, trail: seq<Action>, other: seq<Action>, r: Row, nowNs: int)
    requires multiset(trail) == multiset(other)
    ensures var best, same := SeveredAfter(parse, trail, r, nowNs), SeveredAfter(parse, other, r, nowNs);
            (best.Some? <==> same.Some?) && (best.Some? ==> best.value.tsMs == same.value.tsMs)
  {
    SeveredIsLatest(parse, trail, r, nowNs);
    SeveredIsLatest(parse, other, r, nowNs);
    assert forall a :: a in trail <==> a in multiset(trail);
    assert forall a :: a in other <==> a in multiset(other);
  }

  /** A trail that has every action of another, and any more, makes no row page that did not. */
  lemma MoreTrailQuiets(parse: Parse, b: Book, longer: seq<Action>, r: Row, staleAckNs: Millis)
    requires forall a <- b.trail :: a in longer
    requires Pages(parse, b.(trail := longer), r, staleAckNs)
    ensures Pages(parse, b, r, staleAckNs)
  {
    SeveredIsLatest(parse, b.trail, r, b.nowNs);
    SeveredIsLatest(parse, longer, r, b.nowNs);
  }

  lemma {:induction false} ContainmentOnlyQuiets(parse: Parse, b: Book, longer: seq<Action>, rows: seq<Row>,
                                                 staleAckNs: Millis)
    requires forall a <- b.trail :: a in longer
    ensures |Paging(parse, b.(trail := longer), rows, staleAckNs)| <= |Paging(parse, b, rows, staleAckNs)|
    decreases |rows|
  {
    if rows != [] {
      ContainmentOnlyQuiets(parse, b, longer, rows[..|rows| - 1], staleAckNs);
      if Pages(parse, b.(trail := longer), rows[|rows| - 1], staleAckNs) {
        MoreTrailQuiets(parse, b, longer, rows[|rows| - 1], staleAckNs);
      }
    }
  }

  // ----- the counts agree, except where the bound is not positive ----------------------------------

  /** An act-now row, not contained, that somebody has held, unmoved, for more than a day. */
  ghost predicate Forgotten(parse: Parse, b: Book, r: Row) {
    && r.state in {"", "open"} && r.lane == "act-now" && !Contained(parse, b.trail, r, b.nowNs)
    && (r.ack != "" || r.assignee != "") && Unmoved(r, b.nowNs, 86_400_000_000_000)
  }

  lemma {:induction false} CountsDiffer(parse: Parse, b: Book, rows: seq<Row>, staleAckNs: Millis)
    requires staleAckNs <= 0
    ensures var gate, shown := |Paging(parse, b, rows, staleAckNs)|, |Paging(parse, b, rows, RenderBound(staleAckNs))|;
            gate <= shown && (gate == shown <==> forall r <- rows :: !Forgotten(parse, b, r))
    decreases |rows|
  {
    hide Pages, Contained, Unmoved, Loud;
    if rows != [] {
      var before, r := rows[..|rows| - 1], rows[|rows| - 1];
      CountsDiffer(parse, b, before, staleAckNs);
      PagesExactly(parse, b, r, staleAckNs);
      PagesExactly(parse, b, r, RenderBound(staleAckNs));
      NeverUnmoved(r, b.nowNs, staleAckNs);
      assert Pages(parse, b, r, staleAckNs) <==> Pages(parse, b, r, RenderBound(staleAckNs)) && !Forgotten(parse, b, r);
      assert rows == before + [r];
    }
  }

  lemma NeverUnmoved(r: Row, nowNs: int, staleAckNs: Millis)
    requires staleAckNs <= 0
    ensures !Unmoved(r, nowNs, staleAckNs)
  {
  }

  /** The gate counts what the document and the headline count exactly when the bound is positive or no
      act-now row has been held unmoved for over a day. */
  lemma CountsAgreeExactly(parse: Parse, b: Book, staleAckNs: Millis)
    ensures |Paging(parse, b, b.rows, staleAckNs)| == |Paging(parse, b, b.rows, RenderBound(staleAckNs))|
            <==> staleAckNs > 0 || forall r <- b.rows :: !Forgotten(parse, b, r)
  {
    if staleAckNs <= 0 {
      CountsDiffer(parse, b, b.rows, staleAckNs);
    }
  }

  /** No bound asked for, and a row held for two days: the gate counts nothing, the document and the headline
      one. */
  lemma ZeroBoundForgets()
    ensures var r := Row("", "", "", "T1", "", ACT_NOW, "", None, 0, "ada", Some(1), "");
            var b := Book([r], row => Endpoint(false, "", "", "", ""), [], 2 * DAY_NS + MS_NS);
            |Paging(s => None, b, b.rows, 0)| != |Paging(s => None, b, b.rows, RenderBound(0))|
  {
    var r := Row("", "", "", "T1", "", ACT_NOW, "", None, 0, "ada", Some(1), "");
    var b := Book([r], row => Endpoint(false, "", "", "", ""), [], 2 * DAY_NS + MS_NS);
    assert Forgotten(s => None, b, r) && r in b.rows;
    CountsAgreeExactly(s => None, b, 0);
  }
}
