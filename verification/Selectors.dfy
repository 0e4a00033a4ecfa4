/**
 What a person types to name a row, and the name a row prints. Case folding and the reading of addresses are
 given; folding keeps length and takes no notice of a letter's case.
 */
module Selectors {
  import opened Wrappers
  import opened Text
  import opened AlertModel

  datatype Names = Names(fold: string -> string, lower: string -> string, ip: string -> Option<Addr>) {
    ghost predicate Valid() {
      forall s: string :: fold(Upper(s)) == fold(s) && |fold(s)| == |s|
    }

    predicate SameFold(a: string, b: string) {
      fold(a) == fold(b)
    }
  }

  datatype Selector = Selector(subject: string, condition: string)

  predicate Digits(s: string) {
    s != "" && forall c <- s :: IsDigit(c)
  }

  function Decimal(s: string): nat
    requires forall c <- s :: IsDigit(c)
  {
    if s == "" then 0
    else
      assert s[|s| - 1] in s && IsDigit(s[|s| - 1]);
      Decimal(s[..|s| - 1]) * 10 + (s[|s| - 1] as int - '0' as int)
  }

  /** A decimal number as the library reads one: a sign may come first. */
  function Atoi(s: string): Option<int> {
    if s != "" && s[0] == '-' && Digits(s[1..]) then Some(-(Decimal(s[1..]) as int))
    else if s != "" && s[0] == '+' && Digits(s[1..]) then Some(Decimal(s[1..]))
    else if Digits(s) then Some(Decimal(s)) else None
  }

  predicate IsPrefixLen(s: string) {
    s != "" && |s| <= 3 && Atoi(s).Some? && 0 <= Atoi(s).value <= 128
  }

  /** T and four digits, and a dot and three more for a sub-technique. */
  predicate IsTechnique(s: string) {
    && (|s| == 5 || |s| == 9) && s[0] in {'T', 't'} && (forall i | 1 <= i < 5 :: IsDigit(s[i]))
    && (|s| == 9 ==> s[5] == '.' && forall i | 6 <= i < 9 :: IsDigit(s[i]))
  }

  predicate LooksLikeCondition(s: string) {
    HasPrefix(Upper(s), "CVE-") || IsTechnique(Upper(s))
  }

  function Normalise(s: string): string {
    if s != "" && IsTechnique(Upper(s)) then Upper(s) else s
  }

  /** Split at the last slash that is not a prefix length. */
  function SplitTarget(s: string): (string, string) {
    var i := LastIndexOf(s, '/');
    if i < 0 || IsPrefixLen(s[i + 1..]) then (s, "") else (s[..i], s[i + 1..])
  }

  function ParseSelector(typed: string): Selector {
    var s := TrimSpace(typed);
    if s == "" then Selector("", "")
    else
      var (left, right) := SplitTarget(s);
      var subject, condition := TrimDot(TrimSpace(left)), TrimSpace(right);
      if condition == "" && LooksLikeCondition(subject) then Selector("", Normalise(subject))
      else Selector(subject, Normalise(condition))
  }

  function ParseAddr(n: Names, text: string): Option<Addr> {
    var s := TrimSpace(text);
    if s == "" then None
    else
      var i := LastIndexOf(s, '/');
      n.ip(if i >= 0 && IsPrefixLen(s[i + 1..]) then s[..i] else s)
  }

  function FirstLabel(s: string): string {
    var i := IndexOf(s, '.');
    if i > 0 then s[..i] else s
  }

  predicate ConditionMatches(n: Names, want: string, r: Row) {
    n.SameFold(want, r.technique) || n.SameFold(want, r.id)
  }

  /** The endpoint answers to the name by its own agent, label or fqdn. */
  predicate EndpointNamed(n: Names, want: string, e: Endpoint) {
    || n.SameFold(want, e.agent) || n.SameFold(want, e.title)
    || (var fqdn, w := TrimDot(n.lower(e.fqdn)), TrimDot(n.lower(want));
        fqdn != "" && (w == fqdn || w == FirstLabel(fqdn)))
  }

  predicate SubjectMatches(n: Names, want: string, r: Row, e: Endpoint) {
    n.SameFold(want, r.agent) || SameAddress(text => ParseAddr(n, text), want, r.address) || EndpointNamed(n, want, e)
  }

  predicate Matches(n: Names, s: Selector, r: Row, e: Endpoint) {
    && (s.condition == "" || ConditionMatches(n, s.condition, r))
    && (s.subject == "" || SubjectMatches(n, s.subject, r, e))
  }

  // ----- the round trip ---------------------------------------------------------------------------------

  /** A row whose name can be told apart from what else a person types. */
  predicate Speakable(r: Row) {
    var s, c := r.Subject(), r.Condition();
    && Trimmed(s) && Trimmed(c) && (s != "" ==> s[|s| - 1] != '.')
    && c != "" && '/' !in c && !IsPrefixLen(c) && (s != "" || LooksLikeCondition(c))
  }

  lemma {:induction false} LastSlash(s: string, c: string)
    requires '/' !in c
    ensures LastIndexOf(s + "/" + c, '/') == |s|
    decreases |c|
  {
    var t := s + "/" + c;
    if c != "" {
      assert t[..|t| - 1] == s + "/" + c[..|c| - 1];
      assert '/' !in c[..|c| - 1];
      LastSlash(s, c[..|c| - 1]);
      assert t[|t| - 1] == c[|c| - 1] && c[|c| - 1] in c;
    }
  }

  lemma JoinedTrimmed(s: string, c: string)
    requires s != "" && Trimmed(s) && c != "" && Trimmed(c)
    ensures TrimSpace(s + "/" + c) == s + "/" + c
  {
    var ref := s + "/" + c;
    assert ref[0] == s[0] && ref[|ref| - 1] == c[|c| - 1];
    TrimmedStays(ref);
  }

  lemma JoinedSplits(s: string, c: string)
    requires '/' !in c && !IsPrefixLen(c)
    ensures SplitTarget(s + "/" + c) == (s, c)
  {
    hide IsPrefixLen;
    var ref := s + "/" + c;
    LastSlash(s, c);
    assert ref[..|s|] == s && ref[|s| + 1..] == c;
  }

  /** A row with a subject prints a name that parses into its own two halves. */
  lemma SubjectParses(r: Row)
    requires Speakable(r) && r.Subject() != ""
    ensures ParseSelector(r.Ref()) == Selector(r.Subject(), Normalise(r.Condition()))
  {
    hide IsPrefixLen, Normalise, LooksLikeCondition, SplitTarget, TrimSpace;
    var s, c := r.Subject(), r.Condition();
    assert r.Ref() == s + "/" + c;
    JoinedTrimmed(s, c);
    JoinedSplits(s, c);
    TrimmedStays(s);
    TrimmedStays(c);
  }

  /** A row with none prints its condition, which parses into itself but for a last dot. */
  lemma ConditionParses(r: Row)
    requires Speakable(r) && r.Subject() == ""
    ensures ParseSelector(r.Ref()) == Selector("", Normalise(TrimDot(r.Condition())))
  {
    var c := r.Condition();
    TrimmedStays(c);
    if c[|c| - 1] == '.' {
      assert |Upper(c)| == |c|;
      UpperPrefix(c, |c| - 1);
      UpperLast(c);
    }
  }

  lemma UpperLast(s: string)
    requires s != "" && s[|s| - 1] == '.'
    ensures Upper(s)[|s| - 1] == '.'
  {
    UpperAt(s, |s| - 1);
  }

  lemma NormaliseFolds(n: Names, s: string)
    requires n.Valid()
    ensures n.SameFold(Normalise(s), s) && |Normalise(s)| == |s|
  {
  }

  /** The name a row prints finds that row exactly when: with an agent, always; with only an address, when the
      address reads as one or the endpoint answers to it; with neither, when the condition ends in no dot, or
      the row's id is the condition without it. */
  lemma RefRoundTripsExactly(n: Names, r: Row, e: Endpoint)
    requires n.Valid() && Speakable(r)
    ensures Matches(n, ParseSelector(r.Ref()), r, e) <==>
            if r.agent != "" then true
            else if r.address != "" then ParseAddr(n, r.address).Some? || EndpointNamed(n, r.address, e)
            else r.Condition()[|r.Condition()| - 1] != '.' || n.SameFold(TrimDot(r.Condition()), r.id)
  {
    hide ParseSelector, Normalise, ParseAddr, EndpointNamed, IsPrefixLen;
    var c := r.Condition();
    if r.Subject() != "" {
      SubjectParses(r);
      NormaliseFolds(n, c);
      assert |n.fold(r.Subject())| > 0 && |n.fold("")| == 0;
    } else {
      ConditionParses(r);
      NormaliseFolds(n, TrimDot(c));
    }
  }

  /** A row of nothing but these three texts. */
  function Plain(address: string, technique: string, id: string): Row {
    Row("", address, id, technique, "", "", "", None, 0, "", None, "")
  }

  lemma NoAddressReads(n: Names)
    requires n.ip("printer") == None
    ensures ParseAddr(n, "printer") == None
  {
    TrimmedStays("printer");
    assert '/' !in "printer";
  }

  lemma T1486Speaks()
    ensures !IsPrefixLen("T1486") && '/' !in "T1486" && Trimmed("T1486") && Trimmed("printer")
  {
  }

  /** An endpoint named only by something that is no address is not found by the name its row prints. */
  lemma UnreadAddressIsLost(n: Names)
    requires n.Valid() && n.ip("printer") == None && TrimDot(n.lower("")) == ""
    ensures var r := Plain("printer", "T1486", "");
            Speakable(r) && !Matches(n, ParseSelector(r.Ref()), r, Endpoint(false, "", "", "", ""))
  {
    hide Matches, ParseSelector, ParseAddr, LooksLikeCondition, IsPrefixLen, TrimDot, FirstLabel, Trimmed;
    var r, e := Plain("printer", "T1486", ""), Endpoint(false, "", "", "", "");
    T1486Speaks();
    NoAddressReads(n);
    assert Speakable(r);
    RefRoundTripsExactly(n, r, e);
    assert |n.fold("printer")| == 7 && |n.fold("")| == 0;
  }

  lemma CveSpeaks()
    ensures !IsPrefixLen("CVE-1.") && '/' !in "CVE-1." && Trimmed("CVE-1.") && LooksLikeCondition("CVE-1.")
    ensures TrimDot("CVE-1.") == "CVE-1"
  {
    var c := "CVE-1.";
    assert c[0] == 'C' && c[5] == '.';
    forall i | 0 <= i < 6 ensures Upper(c)[i] == c[i] {
      UpperAt(c, i);
    }
    assert Upper(c) == c;
    assert c[..4] == "CVE-";
  }

  /** A vulnerability id that ends in a dot, on no endpoint, loses the dot and then the row. */
  lemma LastDotIsLost(n: Names, e: Endpoint)
    requires n.Valid()
    ensures var r := Plain("", "", "CVE-1.");
            Speakable(r) && !Matches(n, ParseSelector(r.Ref()), r, e)
  {
    hide Matches, ParseSelector, ParseAddr, LooksLikeCondition, IsPrefixLen, TrimDot, FirstLabel, Trimmed;
    var r := Plain("", "", "CVE-1.");
    CveSpeaks();
    EmptyTrimmed();
    assert Speakable(r);
    RefRoundTripsExactly(n, r, e);
    assert |n.fold("CVE-1")| == 5 && |n.fold("CVE-1.")| == 6;
  }

  lemma EmptyTrimmed()
    ensures Trimmed("")
  {
  }

  /** A sign counts: a condition "+12" is taken for a prefix length, and the whole text for a subject. */
  lemma SignedPrefixLength()
    ensures IsPrefixLen("+12") && IsPrefixLen("-0") && !IsPrefixLen("129") && !IsPrefixLen("+128")
    ensures SplitTarget("scout/+12") == ("scout/+12", "")
  {
    assert "+12"[1..] == "12" && "12"[..1] == "1" && "1"[..0] == "";
    assert Decimal("1") == 1 && Decimal("12") == 12;
    assert "-0"[1..] == "0" && "0"[..0] == "" && Decimal("0") == 0;
    assert "129"[..2] == "12" && Decimal("129") == 129;
    assert '/' !in "+12";
    LastSlash("scout", "+12");
    assert "scout" + "/" + "+12" == "scout/+12";
    assert "scout/+12"[6..] == "+12";
  }

  // ----- what else is found ----------------------------------------------------------------------------------

  /** A printed name finds exactly the rows of its own condition, as a technique or as an id, that are on its own
      subject: one agent's, one address by its value, or one endpoint's that answers to it. */
  lemma RefFindsExactly(n: Names, r: Row, o: Row, e: Endpoint)
    requires n.Valid() && Speakable(r)
    ensures var (s, c) := (r.Subject(), if r.Subject() == "" then TrimDot(r.Condition()) else r.Condition());
            var f := TrimDot(n.lower(e.fqdn));
            Matches(n, ParseSelector(r.Ref()), o, e) <==>
              && (n.fold(o.technique) == n.fold(c) || n.fold(o.id) == n.fold(c))
              && (|| s == "" || n.fold(o.agent) == n.fold(s)
                  || (ParseAddr(n, s).Some? && ParseAddr(n, o.address) == ParseAddr(n, s))
                  || n.fold(e.agent) == n.fold(s) || n.fold(e.title) == n.fold(s)
                  || (f != "" && TrimDot(n.lower(s)) in {f, FirstLabel(f)}))
  {
    hide ParseSelector, Normalise, ParseAddr, IsPrefixLen, TrimDot, FirstLabel, LooksLikeCondition, Trimmed;
    var s, c := r.Subject(), r.Condition();
    if s != "" {
      SubjectParses(r);
      NormaliseFolds(n, c);
    } else {
      ConditionParses(r);
      NormaliseFolds(n, TrimDot(c));
      SpokenIsLonger(c);
    }
  }

  lemma SpokenIsLonger(c: string)
    requires LooksLikeCondition(c)
    ensures TrimDot(c) != ""
  {
  }

  /** A word alone, character by character, that is a condition: a vulnerability's id, or a technique's, in any
      case. */
  predicate NamesCondition(s: string) {
    || (|s| >= 4 && s[0] in {'c', 'C'} && s[1] in {'v', 'V'} && s[2] in {'e', 'E'} && s[3] == '-')
    || NamesTechnique(s)
  }

  predicate NamesTechnique(s: string) {
    && |s| in {5, 9} && s[0] in {'t', 'T'} && (forall i | 1 <= i < 5 :: '0' <= s[i] <= '9')
    && (|s| == 9 ==> s[5] == '.' && '0' <= s[6] <= '9' && '0' <= s[7] <= '9' && '0' <= s[8] <= '9')
  }

  lemma TechniqueExactly(s: string)
    requires s != ""
    ensures IsTechnique(Upper(s)) <==> NamesTechnique(s)
  {
    forall i | 0 <= i < |s| ensures Upper(s)[i] == UpperChar(s[i]) {
      UpperAt(s, i);
    }
  }

  lemma ConditionExactly(s: string)
    requires s != ""
    ensures LooksLikeCondition(s) <==> NamesCondition(s)
  {
    hide IsTechnique, NamesTechnique;
    TechniqueExactly(s);
    if |s| >= 4 {
      UpperAt(s, 0);
      UpperAt(s, 1);
      UpperAt(s, 2);
      UpperAt(s, 3);
      assert Upper(s)[..4] == [Upper(s)[0], Upper(s)[1], Upper(s)[2], Upper(s)[3]];
    }
  }

  lemma WordStays(s: string)
    requires s != "" && Trimmed(s) && '/' !in s && s[|s| - 1] != '.'
    ensures TrimSpace(s) == s && TrimSpace("") == "" && TrimDot(s) == s && SplitTarget(s) == (s, "")
  {
    TrimmedStays(s);
  }

  /** A word alone is read as a condition exactly when it looks like one, a technique's in capitals; any other is
      a subject. */
  lemma WordParses(s: string)
    requires s != "" && Trimmed(s) && '/' !in s && s[|s| - 1] != '.'
    ensures ParseSelector(s) == if !NamesCondition(s) then Selector(s, "")
                                else Selector("", if NamesTechnique(s) then Upper(s) else s)
  {
    hide IsTechnique, NamesTechnique, NamesCondition, LooksLikeCondition, TrimSpace, Trimmed, Upper, LastIndexOf;
    hide IsPrefixLen, TrimDot;
    WordStays(s);
    TechniqueExactly(s);
    ConditionExactly(s);
  }

  /** An address may carry a prefix length, which is no part of it. */
  lemma PrefixLengthIsDropped(n: Names, a: string, bits: string)
    requires Trimmed(a) && '/' !in a && Digits(bits) && |bits| <= 3 && Decimal(bits) <= 128
    ensures ParseAddr(n, a + "/" + bits) == n.ip(a) && (a != "" ==> ParseAddr(n, a) == n.ip(a))
  {
    hide IsPrefixLen, TrimSpace, Trimmed, Digits, Decimal, LastIndexOf;
    DigitsAreALength(bits);
    LengthTrims(a, bits);
    LastSlash(a, bits);
    var s := a + "/" + bits;
    assert s[..|a|] == a && s[|a| + 1..] == bits;
    assert LastIndexOf(a, '/') < 0;
  }

  lemma LengthTrims(a: string, bits: string)
    requires Trimmed(a) && bits != "" && Trimmed(bits)
    ensures TrimSpace(a) == a && TrimSpace(a + "/" + bits) == a + "/" + bits
  {
    var s := a + "/" + bits;
    assert s[0] == (if a == "" then '/' else a[0]) && s[|s| - 1] == bits[|bits| - 1];
    TrimmedStays(a);
    TrimmedStays(s);
  }

  /** A host name's first label is what stands before its first dot, and a name that begins with one has none. */
  lemma FirstLabelExactly(first: string, rest: string)
    requires '.' !in first
    ensures FirstLabel(first) == first
    ensures FirstLabel(first + "." + rest) == if first == "" then "." + rest else first
  {
    var s := first + "." + rest;
    assert s[|first|] == '.' && s[..|first|] == first;
    assert first == "" ==> s == "." + rest;
  }

  lemma DigitsAreALength(bits: string)
    requires Digits(bits) && |bits| <= 3 && Decimal(bits) <= 128
    ensures bits != "" && IsPrefixLen(bits) && '/' !in bits && Trimmed(bits)
  {
    assert bits[0] in bits && bits[|bits| - 1] in bits;
  }
}
