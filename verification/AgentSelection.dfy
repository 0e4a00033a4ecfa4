/**
 Finding the one agent a selector names, in a listing whose row order means nothing. Address parsing and
 case folding are given as functions; the parser takes no address from an empty text.
 */
module AgentSelection {
  import opened Wrappers
  import opened Text

  datatype Choice = Choice(name: string, addr: string, id: string)

  datatype World = World(parse: string -> Option<Addr>, fold: string -> string) {
    ghost predicate Valid() {
      parse("") == None
    }

    predicate SameIP(a: string, b: string) {
      parse(a).Some? && parse(a) == parse(b)
    }

    predicate SameFold(a: string, b: string) {
      fold(a) == fold(b)
    }
  }

  /** An agent id without its optional "agent-" prefix. */
  function IdCore(id: string): string {
    var t := TrimSpace(id);
    if |t| > 6 && Lower(t[..6]) == "agent-" then t[6..] else t
  }

  predicate SameId(a: string, b: string) {
    IdCore(a) != "" && IdCore(a) == IdCore(b)
  }

  predicate Matches(w: World, c: Choice, selector: string) {
    var sel := TrimSpace(selector);
    && sel != ""
    && (c.name == sel || c.addr == sel || SameId(c.id, sel)
        || (c.name != "" && w.SameFold(c.name, sel))
        || (c.id != "" && w.SameFold(IdCore(c.id), IdCore(sel)))
        || w.SameIP(c.addr, sel))
  }

  predicate Exact(w: World, c: Choice, sel: string) {
    c.name == sel || SameId(c.id, sel) || c.addr == sel || w.SameIP(c.addr, sel)
  }

  /** The test a listing that carries one agent twice is de-duplicated by. */
  predicate SameAgent(w: World, have: Choice, c: Choice) {
    (c.addr != "" && w.SameIP(have.addr, c.addr)) || (c.addr == "" && have.addr == "" && SameId(have.id, c.id))
  }

  datatype Selected = NoneMatches | One(choice: Choice) | Ambiguous(candidates: seq<Choice>)

  // ----- as functions of the listing --------------------------------------------------------------

  predicate Holds(w: World, kept: seq<Choice>, c: Choice) {
    exists have <- kept :: SameAgent(w, have, c)
  }

  /** Greedy de-duplication, in the order the rows come. */
  function Distinct(w: World, rows: seq<Choice>): seq<Choice> {
    if rows == [] then []
    else
      var kept, c := Distinct(w, rows[..|rows| - 1]), rows[|rows| - 1];
      if Holds(w, kept, c) then kept else kept + [c]
  }

  function Those(rows: seq<Choice>, p: Choice -> bool): seq<Choice> {
    if rows == [] then []
    else Those(rows[..|rows| - 1], p) + (if p(rows[|rows| - 1]) then [rows[|rows| - 1]] else [])
  }

  function ExactRows(w: World, rows: seq<Choice>, sel: string): seq<Choice> {
    Those(rows, c => Exact(w, c, sel))
  }

  function FoldedRows(w: World, rows: seq<Choice>, sel: string): seq<Choice> {
    Those(rows, c => !Exact(w, c, sel) && Matches(w, c, sel))
  }

  function Verdict(kept: seq<Choice>, otherwise: Selected): Selected {
    if |kept| == 0 then otherwise else if |kept| == 1 then One(kept[0]) else Ambiguous(kept)
  }

  function Select(w: World, rows: seq<Choice>, selector: string): Selected {
    var sel := TrimSpace(selector);
    if sel == "" then NoneMatches
    else Verdict(Distinct(w, ExactRows(w, rows, sel)), Verdict(Distinct(w, FoldedRows(w, rows, sel)), NoneMatches))
  }

  // ----- the loops -----------------------------------------------------------------------------------

  method AppendDistinct(w: World, kept: seq<Choice>, c: Choice) returns (r: seq<Choice>)
    ensures r == if Holds(w, kept, c) then kept else kept + [c]
  {
    hide SameAgent;
    for i := 0 to |kept|
      invariant forall j | 0 <= j < i :: !SameAgent(w, kept[j], c)
    {
      if SameAgent(w, kept[i], c) {
        assert kept[i] in kept;
        return kept;
      }
    }
    return kept + [c];
  }

  method SelectAgent(w: World, choices: seq<Choice>, selector: string) returns (r: Selected)
    ensures r == Select(w, choices, selector)
  {
    var sel := TrimSpace(selector);
    if sel == "" {
      return NoneMatches;
    }
    TrimSpaceTrims(selector);
    TrimmedStays(sel);
    var exact, folded := [], [];
    for i := 0 to |choices|
      invariant exact == Distinct(w, ExactRows(w, choices[..i], sel))
      invariant folded == Distinct(w, FoldedRows(w, choices[..i], sel))
    {
      assert choices[..i + 1][..i] == choices[..i];
      DistinctGrows(w, ExactRows(w, choices[..i], sel), choices[i]);
      DistinctGrows(w, FoldedRows(w, choices[..i], sel), choices[i]);
      var c := choices[i];
      if c.name == sel || SameId(c.id, sel) || c.addr == sel || w.SameIP(c.addr, sel) {
        exact := AppendDistinct(w, exact, c);
      } else if Matches(w, c, sel) {
        folded := AppendDistinct(w, folded, c);
      }
    }
    assert choices[..|choices|] == choices;
    if |exact| == 1 {
      return One(exact[0]);
    } else if |exact| > 1 {
      return Ambiguous(exact);
    } else if |folded| == 1 {
      return One(folded[0]);
    } else if |folded| > 1 {
      return Ambiguous(folded);
    }
    return NoneMatches;
  }

  lemma DistinctGrows(w: World, rows: seq<Choice>, c: Choice)
    ensures Distinct(w, rows + [c])
            == (if Holds(w, Distinct(w, rows), c) then Distinct(w, rows) else Distinct(w, rows) + [c])
    ensures Distinct(w, rows + []) == Distinct(w, rows)
  {
    assert (rows + [c])[..|rows|] == rows;
    assert rows + [] == rows;
  }

  /** Whether the account knows the selector; a listing that could not be fetched is given the benefit. */
  method AccountAgents(w: World, listing: Option<seq<Choice>>, selector: string) returns (known: bool)
    ensures known <==>
              TrimSpace(selector) != "" && (listing.None? || exists c <- listing.value :: Matches(w, c, selector))
  {
    var sel := TrimSpace(selector);
    if sel == "" {
      return false;
    }
    if listing.None? {
      return true;
    }
    TrimSpaceTrims(selector);
    TrimmedStays(sel);
    for i := 0 to |listing.value|
      invariant forall j | 0 <= j < i :: !Matches(w, listing.value[j], selector)
    {
      if Matches(w, listing.value[i], sel) {
        assert listing.value[i] in listing.value && Matches(w, listing.value[i], selector);
        return true;
      }
    }
    return false;
  }

  // ----- which agent a row is ---------------------------------------------------------------------------

  /** Told apart by address, or by id core when it has none; a row with neither is like no other. */
  datatype Identity = ByAddr(addr: Addr) | ById(core: string) | Alone

  function IdentityOf(w: World, c: Choice): Identity {
    if c.addr != "" then (match w.parse(c.addr) case Some(a) => ByAddr(a) case None => Alone)
    else if IdCore(c.id) != "" then ById(IdCore(c.id)) else Alone
  }

  lemma SameAgentIsSameIdentity(w: World, have: Choice, c: Choice)
    requires w.Valid()
    ensures SameAgent(w, have, c) <==> IdentityOf(w, have) == IdentityOf(w, c) && IdentityOf(w, c) != Alone
  {
  }

  function Identities(w: World, rows: seq<Choice>): set<Identity> {
    set c <- rows | IdentityOf(w, c) != Alone :: IdentityOf(w, c)
  }

  function Loners(w: World, rows: seq<Choice>): seq<Choice> {
    Those(rows, c => IdentityOf(w, c) == Alone)
  }

  /** De-duplication keeps one row for each agent, and every row that is like no other. */
  lemma {:induction false} DistinctCounts(w: World, rows: seq<Choice>)
    requires w.Valid()
    ensures Identities(w, Distinct(w, rows)) == Identities(w, rows)
    ensures |Distinct(w, rows)| == |Identities(w, rows)| + |Loners(w, rows)|
    ensures forall c <- Distinct(w, rows) :: c in rows
    decreases |rows|
  {
    hide IdentityOf, Holds;
    if rows != [] {
      var before, c := rows[..|rows| - 1], rows[|rows| - 1];
      DistinctCounts(w, before);
      var kept := Distinct(w, before);
      assert rows == before + [c];
      if IdentityOf(w, c) == Alone {
        assert Identities(w, rows) == Identities(w, before);
        assert Identities(w, kept + [c]) == Identities(w, kept);
      } else {
        assert Identities(w, rows) == Identities(w, before) + {IdentityOf(w, c)};
        assert Identities(w, kept + [c]) == Identities(w, kept) + {IdentityOf(w, c)};
      }
      HoldsExactly(w, kept, c);
    }
  }

  lemma HoldsExactly(w: World, kept: seq<Choice>, c: Choice)
    requires w.Valid()
    ensures Holds(w, kept, c) <==> IdentityOf(w, c) != Alone && IdentityOf(w, c) in Identities(w, kept)
  {
    forall have <- kept {
      SameAgentIsSameIdentity(w, have, c);
    }
  }

  lemma {:induction false} ThosePermute(rows: seq<Choice>, p: Choice -> bool, c: Choice)
    ensures multiset(Those(rows, p))[c] == if p(c) then multiset(rows)[c] else 0
    decreases |rows|
  {
    if rows != [] {
      ThosePermute(rows[..|rows| - 1], p, c);
      assert rows == rows[..|rows| - 1] + [rows[|rows| - 1]];
    }
  }

  lemma SameThose(rows: seq<Choice>, other: seq<Choice>, p: Choice -> bool)
    requires multiset(rows) == multiset(other)
    ensures multiset(Those(rows, p)) == multiset(Those(other, p))
  {
    forall c: Choice ensures multiset(Those(rows, p))[c] == multiset(Those(other, p))[c] {
      ThosePermute(rows, p, c);
      ThosePermute(other, p, c);
    }
  }

  /** However the rows are ordered, the same number stays, and a single one left is the same agent. */
  lemma DistinctAnyOrder(w: World, rows: seq<Choice>, other: seq<Choice>)
    requires w.Valid() && multiset(rows) == multiset(other)
    ensures |Distinct(w, rows)| == |Distinct(w, other)|
    ensures |Distinct(w, rows)| == 1 ==> SameWinner(w, Distinct(w, rows)[0], Distinct(w, other)[0])
  {
    DistinctCounts(w, rows);
    DistinctCounts(w, other);
    assert forall c :: c in rows <==> c in multiset(rows);
    assert forall c :: c in other <==> c in multiset(other);
    assert Identities(w, rows) == Identities(w, other);
    var alone := (c: Choice) => IdentityOf(w, c) == Alone;
    SameThose(rows, other, alone);
    assert |multiset(Loners(w, rows))| == |multiset(Loners(w, other))|;
    if |Distinct(w, rows)| == 1 {
      OneLeft(w, rows, other);
    }
  }

  /** One agent by address or id core, or one and the same row. */
  predicate SameWinner(w: World, a: Choice, b: Choice) {
    IdentityOf(w, a) == IdentityOf(w, b) && (IdentityOf(w, a) == Alone ==> a == b)
  }

  lemma InLoners(w: World, rows: seq<Choice>, c: Choice)
    requires c in rows && IdentityOf(w, c) == Alone
    ensures c in Loners(w, rows)
  {
    ThosePermute(rows, (d: Choice) => IdentityOf(w, d) == Alone, c);
    assert multiset(rows)[c] > 0;
    assert c in multiset(Loners(w, rows));
  }

  lemma OnlyIdentity(ids: set<Identity>, a: Identity, b: Identity)
    requires |ids| == 1 && a in ids && b in ids
    ensures a == b
  {
    var rest := ids - {a};
    assert |rest| == 0;
    assert b !in rest;
  }

  lemma OneLeft(w: World, rows: seq<Choice>, other: seq<Choice>)
    requires w.Valid() && multiset(rows) == multiset(other)
    requires |Distinct(w, rows)| == 1 == |Distinct(w, other)|
    ensures SameWinner(w, Distinct(w, rows)[0], Distinct(w, other)[0])
  {
    hide IdentityOf, Distinct;
    DistinctCounts(w, rows);
    DistinctCounts(w, other);
    var a, b := Distinct(w, rows)[0], Distinct(w, other)[0];
    assert b in Distinct(w, other) && b in other;
    assert b in multiset(other);
    assert a in rows && b in rows;
    if IdentityOf(w, a) == Alone {
      InLoners(w, rows, a);
      assert Identities(w, rows) == {};
      assert IdentityOf(w, b) != Alone ==> IdentityOf(w, b) in Identities(w, rows);
      InLoners(w, rows, b);
    } else {
      assert IdentityOf(w, a) in Identities(w, rows);
      assert Identities(w, rows) != {};
      assert Loners(w, rows) == [];
      if IdentityOf(w, b) == Alone {
        InLoners(w, rows, b);
      } else {
        OnlyIdentity(Identities(w, rows), IdentityOf(w, a), IdentityOf(w, b));
      }
    }
  }

  /** The verdict: none, one, or too many. */
  predicate SameVerdict(w: World, a: Selected, b: Selected) {
    match (a, b)
    case (NoneMatches, NoneMatches) => true
    case (One(c), One(d)) => SameWinner(w, c, d)
    case (Ambiguous(s), Ambiguous(t)) => |s| == |t|
    case _ => false
  }

  /** Row order never decides: a reordered listing gives the same verdict, the same number of agents to
      choose between, and a single winner is the same agent. */
  lemma SelectAnyOrder(w: World, rows: seq<Choice>, other: seq<Choice>, selector: string)
    requires w.Valid() && multiset(rows) == multiset(other)
    ensures SameVerdict(w, Select(w, rows, selector), Select(w, other, selector))
  {
    hide Distinct, Those, SameWinner;
    var sel := TrimSpace(selector);
    SameThose(rows, other, c => Exact(w, c, sel));
    SameThose(rows, other, c => !Exact(w, c, sel) && Matches(w, c, sel));
    DistinctAnyOrder(w, ExactRows(w, rows, sel), ExactRows(w, other, sel));
    DistinctAnyOrder(w, FoldedRows(w, rows, sel), FoldedRows(w, other, sel));
  }

  lemma {:induction false} ThoseNone(rows: seq<Choice>, p: Choice -> bool)
    ensures Those(rows, p) == [] <==> forall c <- rows :: !p(c)
    decreases |rows|
  {
    if rows != [] {
      ThoseNone(rows[..|rows| - 1], p);
      assert rows == rows[..|rows| - 1] + [rows[|rows| - 1]];
    }
  }

  lemma {:induction false} DistinctNone(w: World, rows: seq<Choice>)
    ensures Distinct(w, rows) == [] <==> rows == []
    decreases |rows|
  {
    if rows != [] {
      DistinctNone(w, rows[..|rows| - 1]);
    }
  }

  /** Something is selected, one agent or several, exactly when some row matches: what the membership
      check says of a listing that answered. */
  lemma SelectsExactlyKnown(w: World, rows: seq<Choice>, selector: string)
    ensures Select(w, rows, selector) != NoneMatches <==>
              TrimSpace(selector) != "" && exists c <- rows :: Matches(w, c, selector)
  {
    var sel := TrimSpace(selector);
    TrimSpaceTrims(selector);
    TrimmedStays(sel);
    var exact, folded := ((c: Choice) => Exact(w, c, sel)), ((c: Choice) => !Exact(w, c, sel) && Matches(w, c, sel));
    ThoseNone(rows, exact);
    ThoseNone(rows, folded);
    DistinctNone(w, ExactRows(w, rows, sel));
    DistinctNone(w, FoldedRows(w, rows, sel));
    if sel != "" {
      forall c <- rows ensures Matches(w, c, selector) <==> exact(c) || folded(c) {
      }
    }
  }

  // ----- which rows stand to be chosen ----------------------------------------------------------------------

  /** Typed as the listing has it: the name, the address or its value, or the id with or without its prefix. */
  predicate Typed(w: World, c: Choice, sel: string) {
    || c.name == sel || c.addr == sel || (IdCore(c.id) == IdCore(sel) && IdCore(sel) != "")
    || (w.parse(sel).Some? && w.parse(c.addr) == w.parse(sel))
  }

  /** Typed in another case: the name, or the id. */
  predicate Alike(w: World, c: Choice, sel: string) {
    || (c.name != "" && w.fold(c.name) == w.fold(sel))
    || (c.id != "" && w.fold(IdCore(c.id)) == w.fold(IdCore(sel)))
  }

  function Candidates(r: Selected): seq<Choice> {
    match r case NoneMatches => [] case One(c) => [c] case Ambiguous(cs) => cs
  }

  /** De-duplication keeps rows of the listing, and one for every agent in it. */
  lemma {:induction false} DistinctKeeps(w: World, rows: seq<Choice>, c: Choice)
    requires w.Valid()
    ensures c in rows ==> exists k <- Distinct(w, rows) :: SameWinner(w, k, c)
    ensures c in Distinct(w, rows) ==> c in rows
    decreases |rows|
  {
    hide IdentityOf, SameAgent;
    if rows != [] {
      var before, last := rows[..|rows| - 1], rows[|rows| - 1];
      DistinctKeeps(w, before, c);
      assert rows == before + [last];
      if Holds(w, Distinct(w, before), last) {
        var have :| have in Distinct(w, before) && SameAgent(w, have, last);
        SameAgentIsSameIdentity(w, have, last);
        assert SameWinner(w, have, last);
      } else {
        assert Distinct(w, rows)[|Distinct(w, before)|] == last && SameWinner(w, last, last);
        if c in before {
          var k :| k in Distinct(w, before) && SameWinner(w, k, c);
          assert k in Distinct(w, rows);
        }
      }
    }
  }

  lemma {:induction false} ThoseIn(rows: seq<Choice>, p: Choice -> bool, c: Choice)
    ensures c in Those(rows, p) <==> c in rows && p(c)
    decreases |rows|
  {
    if rows != [] {
      ThoseIn(rows[..|rows| - 1], p, c);
      assert rows == rows[..|rows| - 1] + [rows[|rows| - 1]];
    }
  }

  lemma HasOne(rows: seq<Choice>)
    ensures rows == [] <==> forall c: Choice :: c !in rows
  {
    if rows != [] {
      assert rows[0] in rows;
    }
  }

  lemma TypedOrAlike(w: World, c: Choice, sel: string)
    requires sel != "" && Trimmed(sel)
    ensures Exact(w, c, sel) <==> Typed(w, c, sel)
    ensures Matches(w, c, sel) <==> Typed(w, c, sel) || Alike(w, c, sel)
  {
    hide IdCore;
    TrimmedStays(sel);
  }

  lemma BlankMatchesNone(w: World, c: Choice, selector: string)
    requires TrimSpace(selector) == ""
    ensures !Matches(w, c, selector)
  {
  }

  /** A row typed exactly beats one typed in another case: where any row is, the candidates are such rows, and
      otherwise those that are typed in another case; either way all of them, one for each agent. */
  lemma ExactBeatsFolded(w: World, rows: seq<Choice>, selector: string, c: Choice)
    requires w.Valid() && TrimSpace(selector) != ""
    ensures var (sel, chosen) := (TrimSpace(selector), Candidates(Select(w, rows, selector)));
            if exists t <- rows :: Typed(w, t, sel)
            then (c in chosen ==> c in rows && Typed(w, c, sel))
                 && (c in rows && Typed(w, c, sel) ==> exists k <- chosen :: SameWinner(w, k, c))
            else (c in chosen ==> c in rows && Alike(w, c, sel))
                 && (c in rows && Alike(w, c, sel) ==> exists k <- chosen :: SameWinner(w, k, c))
    ensures Select(w, rows, selector).Ambiguous? ==> |Candidates(Select(w, rows, selector))| > 1
  {
    hide Distinct, Those, SameWinner, Exact, Matches, Typed, Alike, TrimSpace, Trimmed;
    var sel := TrimSpace(selector);
    TrimSpaceTrims(selector);
    var exact, folded := ExactRows(w, rows, sel), FoldedRows(w, rows, sel);
    DistinctNone(w, exact);
    DistinctNone(w, folded);
    DistinctKeeps(w, exact, c);
    DistinctKeeps(w, folded, c);
    forall t: Choice
      ensures t in exact <==> t in rows && Typed(w, t, sel)
      ensures t in folded <==> t in rows && !Typed(w, t, sel) && Alike(w, t, sel)
    {
      ThoseIn(rows, d => Exact(w, d, sel), t);
      ThoseIn(rows, d => !Exact(w, d, sel) && Matches(w, d, sel), t);
      TypedOrAlike(w, t, sel);
    }
    HasOne(exact);
  }

  lemma LowerAgent()
    ensures Lower("agent-") == "agent-" && Lower("AGENT-") == "agent-"
  {
    forall i | 0 <= i < 6 ensures Lower("agent-")[i] == "agent-"[i] && Lower("AGENT-")[i] == "agent-"[i] {
      LowerAt("agent-", i);
      LowerAt("AGENT-", i);
    }
  }

  /** An id is the same with its prefix, in any case and with space before it. */
  lemma PrefixIsOptional(core: string)
    requires core != "" && !IsSpace(core[|core| - 1])
    ensures IdCore("agent-" + core) == core && IdCore(" AGENT-" + core) == core
  {
    hide Lower, TrimSpace, IsSpace;
    var (plain, loud) := ("agent-" + core, "AGENT-" + core);
    LowerAgent();
    PrefixTrims(core);
    assert plain[..6] == "agent-" && plain[6..] == core && loud[..6] == "AGENT-" && loud[6..] == core;
  }

  lemma PrefixTrims(core: string)
    requires core != "" && !IsSpace(core[|core| - 1])
    ensures TrimSpace("agent-" + core) == "agent-" + core && TrimSpace(" AGENT-" + core) == "AGENT-" + core
  {
    var (plain, loud) := ("agent-" + core, "AGENT-" + core);
    TrimmedStays(plain);
    TrimmedStays(loud);
    assert " AGENT-" + core == " " + loud && (" " + loud)[1..] == loud;
    assert TrimLeft(" " + loud) == TrimLeft(loud);
  }

  /** Without the prefix an id is what is typed. */
  lemma NoPrefixStays(id: string)
    requires id != "" && Trimmed(id) && (|id| <= 6 || Lower(id[..6]) != "agent-")
    ensures IdCore(id) == id
  {
    TrimmedStays(id);
  }
}
