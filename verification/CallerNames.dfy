/**
 Who an accepted connection really came from: records filed under a name made of the whole loopback
 connection, found again by that name, or by its client half alone when only one record has it. Canonical
 address texts are given: each names one address, and none is mapped or zoned.
 */
module CallerNames {
  import opened Wrappers
  import opened Text

  type Port = p: int | 0 <= p < 65536

  /** An address by its canonical text, and a port. */
  datatype AddrPort = AddrPort(addr: string, port: Port)

  /** Hex digits and colons, or decimal groups between single dots. */
  predicate IsAddrText(s: string) {
    && s != "" && (forall c <- s :: IsDigit(c) || 'a' <= c <= 'f' || c == ':' || c == '.')
    && s[0] != '.' && s[|s| - 1] != '.' && (forall i | 0 <= i < |s| - 1 :: !(s[i] == '.' && s[i + 1] == '.'))
  }

  predicate Proper(a: AddrPort) {
    IsAddrText(a.addr)
  }

  function Itoa(n: nat): (s: string)
    ensures |s| > 0 && forall c <- s :: IsDigit(c)
  {
    if n < 10 then ['0' + n as char] else Itoa(n / 10) + ['0' + (n % 10) as char]
  }

  function FlatChar(c: char): char {
    if c == ':' then '_' else if c == '.' then '-' else c
  }

  function FlatText(s: string): (t: string)
    ensures |t| == |s| && forall i | 0 <= i < |s| :: t[i] == FlatChar(s[i])
  {
    if s == "" then "" else [FlatChar(s[0])] + FlatText(s[1..])
  }

  function FlatAddrPort(a: AddrPort): string {
    FlatText(a.addr) + "_" + Itoa(a.port)
  }

  function RecordName(client: AddrPort, target: AddrPort): string {
    FlatAddrPort(client) + "--" + FlatAddrPort(target) + ".json"
  }

  // ----- names tell connections apart ---------------------------------------------------------------

  lemma {:induction false} ItoaTells(m: nat, n: nat)
    requires Itoa(m) == Itoa(n)
    ensures m == n
    decreases m + n
  {
    var s := Itoa(m);
    assert (m >= 10 <==> |Itoa(m)| >= 2) && (n >= 10 <==> |Itoa(n)| >= 2);
    if m >= 10 {
      assert Itoa(m / 10) == s[..|s| - 1] == Itoa(n / 10);
      assert '0' + (m % 10) as char == s[|s| - 1] == '0' + (n % 10) as char;
      ItoaTells(m / 10, n / 10);
    } else {
      assert s == ['0' + m as char] == ['0' + n as char];
    }
  }

  lemma FlatTextTells(s: string, t: string)
    requires IsAddrText(s) && IsAddrText(t) && FlatText(s) == FlatText(t)
    ensures s == t
  {
    forall i | 0 <= i < |s| ensures s[i] == t[i] {
      assert FlatChar(s[i]) == FlatText(s)[i] == FlatText(t)[i] == FlatChar(t[i]);
      assert s[i] in s && t[i] in t;
    }
  }

  /** What follows the address and an underscore is digits, so no later underscore ends another's address. */
  lemma NoLaterUnderscore(a: AddrPort, b: AddrPort)
    requires FlatAddrPort(a) == FlatAddrPort(b)
    ensures |b.addr| <= |a.addr|
  {
    var f, n := FlatAddrPort(a), |a.addr|;
    forall k | n < k < |f| ensures f[k] != '_' {
      assert f[k] == Itoa(a.port)[k - n - 1] && f[k] in Itoa(a.port);
    }
    assert f == FlatText(b.addr) + "_" + Itoa(b.port);
    assert f[|b.addr|] == '_';
  }

  lemma FlatTells(a: AddrPort, b: AddrPort)
    requires Proper(a) && Proper(b) && FlatAddrPort(a) == FlatAddrPort(b)
    ensures a == b
  {
    var f, n := FlatAddrPort(a), |a.addr|;
    NoLaterUnderscore(a, b);
    NoLaterUnderscore(b, a);
    assert f[..n] == FlatText(a.addr) && f[..n] == FlatText(b.addr);
    assert f[n + 1..] == Itoa(a.port) && f[n + 1..] == Itoa(b.port);
    FlatTextTells(a.addr, b.addr);
    ItoaTells(a.port, b.port);
  }

  /** A half never ends in a dash and never holds two in a row. */
  lemma NoDoubleDash(a: AddrPort)
    requires Proper(a)
    ensures Dashless(FlatAddrPort(a))
  {
    var f, n := FlatAddrPort(a), |a.addr|;
    assert f[n] == '_';
    forall i | n < i < |f| ensures f[i] != '-' {
      assert f[i] == Itoa(a.port)[i - n - 1] && f[i] in Itoa(a.port);
    }
    forall i | 0 <= i < |f| - 1 ensures !(f[i] == '-' && f[i + 1] == '-') {
      if i + 1 < n {
        assert f[i] == FlatChar(a.addr[i]) && f[i + 1] == FlatChar(a.addr[i + 1]);
        assert a.addr[i] in a.addr && a.addr[i + 1] in a.addr;
      }
    }
  }

  predicate Dashless(f: string) {
    f != "" && f[|f| - 1] != '-' && forall i | 0 <= i < |f| - 1 :: !(f[i] == '-' && f[i + 1] == '-')
  }

  /** Two dashes stand first where such a half ends. */
  lemma NotShorter(c: string, l: string, x: string, y: string)
    requires Dashless(l) && c + "--" + x == l + "--" + y
    ensures |c| >= |l|
  {
    var name := c + "--" + x;
    assert name[|c|] == '-' && name[|c| + 1] == '-';
    assert forall i | 0 <= i < |l| :: name[i] == l[i];
  }

  /** Two names that begin with a half and two dashes begin with the same half. */
  lemma HalvesTell(client: AddrPort, local: AddrPort, x: string, y: string)
    requires Proper(client) && Proper(local)
    requires FlatAddrPort(client) + "--" + x == FlatAddrPort(local) + "--" + y
    ensures local == client
  {
    hide FlatAddrPort, Proper, Dashless;
    var c, l := FlatAddrPort(client), FlatAddrPort(local);
    NoDoubleDash(client);
    NoDoubleDash(local);
    NotShorter(c, l, x, y);
    NotShorter(l, c, y, x);
    var name := c + "--" + x;
    assert name[..|c|] == c && name[..|l|] == l;
    FlatTells(client, local);
  }

  /** A name begins with a client half and two dashes exactly when that is its own client half. */
  lemma PrefixIsClient(client: AddrPort, local: AddrPort, target: AddrPort)
    requires Proper(client) && Proper(local)
    ensures HasPrefix(RecordName(local, target), FlatAddrPort(client) + "--") <==> local == client
  {
    hide FlatAddrPort, Proper;
    var name, c, l := RecordName(local, target), FlatAddrPort(client), FlatAddrPort(local);
    var rest := FlatAddrPort(target) + ".json";
    assert name == l + "--" + rest;
    if c + "--" <= name {
      var x := name[|c| + 2..];
      assert name == c + "--" + x;
      HalvesTell(client, local, x, rest);
    } else {
      assert name[..|l| + 2] == l + "--";
    }
  }

  lemma JsonTells(a: string, b: string)
    requires a + ".json" == b + ".json"
    ensures a == b
  {
    assert (a + ".json")[..|a|] == a && (b + ".json")[..|b|] == b;
  }

  /** One name, one connection: all four of its numbers. */
  lemma NamesTell(local: AddrPort, target: AddrPort, local': AddrPort, target': AddrPort)
    requires Proper(local) && Proper(target) && Proper(local') && Proper(target')
    requires RecordName(local, target) == RecordName(local', target')
    ensures local == local' && target == target'
  {
    hide FlatAddrPort, Proper;
    var half, rest, rest' := FlatAddrPort(local), FlatAddrPort(target) + ".json", FlatAddrPort(target') + ".json";
    assert half + "--" + rest == RecordName(local, target);
    assert FlatAddrPort(local') + "--" + rest' == RecordName(local, target);
    HalvesTell(local', local, rest', rest);
    var k := |half| + 2;
    assert RecordName(local, target)[k..] == rest && RecordName(local, target)[k..] == rest';
    JsonTells(FlatAddrPort(target), FlatAddrPort(target'));
    FlatTells(target, target');
  }

  // ----- the registry --------------------------------------------------------------------------------

  datatype Record = Record(caller: string, port: int, local: AddrPort, target: AddrPort, pid: nat, since: int)

  /** One directory's readable, trusted records by file name. */
  type Dir = map<string, Record>

  /** Every record lies under the name of its own four numbers, as the recorder files it. */
  predicate WellNamed(d: Dir) {
    forall name <- d :: FiledRight(d, name)
  }

  predicate FiledRight(d: Dir, name: string)
    requires name in d
  {
    Proper(d[name].local) && Proper(d[name].target) && name == RecordName(d[name].local, d[name].target)
  }

  /** A record of this client whose holder still lives, found by the start of its name. */
  predicate Hit(d: Dir, name: string, client: AddrPort, alive: nat -> bool) {
    name in d && HasPrefix(name, FlatAddrPort(client) + "--") && d[name].local == client && alive(d[name].pid)
  }

  function HitNames(d: Dir, client: AddrPort, alive: nat -> bool): set<string> {
    set name | name in d && Hit(d, name, client, alive)
  }

  /** How many records, in all directories, this client has. */
  function Total(dirs: seq<Dir>, client: AddrPort, alive: nat -> bool): nat {
    if dirs == [] then 0
    else Total(dirs[..|dirs| - 1], client, alive) + |HitNames(dirs[|dirs| - 1], client, alive)|
  }

  predicate Exact(d: Dir, client: AddrPort, server: AddrPort, alive: nat -> bool) {
    var name := RecordName(client, server);
    name in d && d[name].local == client && d[name].target == server && alive(d[name].pid)
  }

  /** With both halves: the first directory that has exactly that connection, its holder alive. */
  method LookupExact(dirs: seq<Dir>, client: AddrPort, server: AddrPort, alive: nat -> bool) returns (r: Option<Record>)
    ensures r.Some? ==> r.value.local == client && r.value.target == server && alive(r.value.pid)
    ensures r.Some? ==> exists i | 0 <= i < |dirs| ::
      Exact(dirs[i], client, server, alive) && r.value == dirs[i][RecordName(client, server)]
      && forall j | 0 <= j < i :: !Exact(dirs[j], client, server, alive)
    ensures r.None? <==> forall i | 0 <= i < |dirs| :: !Exact(dirs[i], client, server, alive)
  {
    var name := RecordName(client, server);
    for i := 0 to |dirs|
      invariant forall j | 0 <= j < i :: !Exact(dirs[j], client, server, alive)
    {
      if name in dirs[i] {
        var record := dirs[i][name];
        if record.local == client && record.target == server && alive(record.pid) {
          assert Exact(dirs[i], client, server, alive);
          return Some(record);
        }
      }
    }
    return None;
  }

  /** One directory's records of this client, its files met in any order. */
  method HitsIn(d: Dir, client: AddrPort, alive: nat -> bool) returns (found: seq<string>)
    ensures |found| == |HitNames(d, client, alive)|
    ensures forall name :: name in found <==> name in HitNames(d, client, alive)
  {
    hide FlatAddrPort, HasPrefix;
    var prefix := FlatAddrPort(client) + "--";
    found := [];
    var todo := d.Keys;
    ghost var hits: set<string> := {};
    while todo != {}
      invariant todo <= d.Keys && |found| == |hits| && forall name :: name in found <==> name in hits
      invariant hits == HitNames(d, client, alive) - todo
      decreases todo
    {
      var name :| name in todo;
      todo := todo - {name};
      if HasPrefix(name, prefix) && d[name].local == client && alive(d[name].pid) {
        assert Hit(d, name, client, alive);
        found, hits := found + [name], hits + {name};
      }
      assert hits == HitNames(d, client, alive) - todo;
    }
  }

  /** With the client half alone: the record, when only one has it. */
  method LookupClient(dirs: seq<Dir>, client: AddrPort, alive: nat -> bool) returns (r: Option<Record>)
    ensures r.Some? <==> Total(dirs, client, alive) == 1
    ensures r.Some? ==> exists i, name ::
              0 <= i < |dirs| && name in HitNames(dirs[i], client, alive) && r.value == dirs[i][name]
  {
    var count, last := 0, None;
    for i := 0 to |dirs|
      invariant count == Total(dirs[..i], client, alive)
      invariant count > 0 <==> last.Some?
      invariant last.Some? ==> exists j, name ::
                  0 <= j < i && name in HitNames(dirs[j], client, alive) && last.value == dirs[j][name]
    {
      var names := HitsIn(dirs[i], client, alive);
      assert dirs[..i + 1][..i] == dirs[..i];
      if names != [] {
        assert names[0] in HitNames(dirs[i], client, alive);
        last := Some(dirs[i][names[0]]);
      }
      count := count + |names|;
    }
    assert dirs[..|dirs|] == dirs;
    return if count == 1 then last else None;
  }

  // ----- no lookup mixes two clients ---------------------------------------------------------------------

  /** Where files are filed under their own names, the scan selects exactly the live records whose local half is
      the client's, and no other client's file begins alike. */
  lemma ScanIsExact(d: Dir, client: AddrPort, alive: nat -> bool, name: string)
    requires Proper(client) && name in d && FiledRight(d, name)
    ensures HasPrefix(name, FlatAddrPort(client) + "--") <==> d[name].local == client
    ensures name in HitNames(d, client, alive) <==> d[name].local == client && alive(d[name].pid)
  {
    PrefixIsClient(client, d[name].local, d[name].target);
  }

  /** Filing a record keeps every other connection's: it is found by its own four numbers and no others, and
      no client's own records change but those of the record's, which gain it while its holder lives. */
  lemma FiledIsFound(d: Dir, r: Record, client: AddrPort, server: AddrPort, alive: nat -> bool)
    requires WellNamed(d) && Proper(r.local) && Proper(r.target) && Proper(client) && Proper(server)
    ensures var name := RecordName(r.local, r.target);
            var filed := d[name := r];
            && WellNamed(filed)
            && (Exact(filed, client, server, alive) <==>
                if client == r.local && server == r.target then alive(r.pid) else Exact(d, client, server, alive))
            && HitNames(filed, client, alive) ==
               if client != r.local then HitNames(d, client, alive)
               else HitNames(d, client, alive) - {name} + if alive(r.pid) then {name} else {}
  {
    hide RecordName, Proper;
    if RecordName(client, server) == RecordName(r.local, r.target) {
      NamesTell(client, server, r.local, r.target);
    }
    FiledHits(d, r, client, alive);
  }

  lemma FiledHits(d: Dir, r: Record, client: AddrPort, alive: nat -> bool)
    requires WellNamed(d) && Proper(r.local) && Proper(r.target) && Proper(client)
    ensures var name := RecordName(r.local, r.target);
            HitNames(d[name := r], client, alive) ==
              if client != r.local then HitNames(d, client, alive)
              else HitNames(d, client, alive) - {name} + if alive(r.pid) then {name} else {}
  {
    hide RecordName, Proper, FlatAddrPort;
    var name := RecordName(r.local, r.target);
    PrefixIsClient(client, r.local, r.target);
    if name in d {
      assert FiledRight(d, name);
      NamesTell(d[name].local, d[name].target, r.local, r.target);
    }
  }

  lemma FewerStayWellNamed(dirs: seq<Dir>, at: nat, name: string)
    requires at < |dirs| && forall d <- dirs :: WellNamed(d)
    ensures forall d <- dirs[at := dirs[at] - {name}] :: WellNamed(d)
  {
    hide RecordName, Proper;
    assert WellNamed(dirs[at]);
  }

  class Registry {
    var dirs: seq<Dir>
    const usable: seq<bool>

    constructor (n: nat, usable: seq<bool>)
      requires |usable| == n
      ensures |dirs| == n && this.usable == usable && forall d <- dirs :: d == map[]
    {
      dirs, this.usable := seq(n, _ => map[]), usable;
    }

    /** Files the record in the first directory that takes it, over whatever the reused port left there. */
    method RecordAcceptCaller(r: Record) returns (at: Option<nat>)
      requires |usable| == |dirs| && (forall d <- dirs :: WellNamed(d)) && Proper(r.local) && Proper(r.target)
      modifies this
      ensures |dirs| == |old(dirs)| && forall d <- dirs :: WellNamed(d)
      ensures at.None? ==> dirs == old(dirs) && forall i | 0 <= i < |dirs| :: !usable[i]
      ensures at.Some? ==> at.value < |dirs| && usable[at.value] && forall i | 0 <= i < at.value :: !usable[i]
      ensures at.Some? ==> dirs == old(dirs)[at.value := old(dirs)[at.value][RecordName(r.local, r.target) := r]]
    {
      for i := 0 to |dirs|
        invariant dirs == old(dirs) && forall j | 0 <= j < i :: !usable[j]
      {
        if usable[i] {
          FiledIsFound(dirs[i], r, r.local, r.target, _ => true);
          dirs := dirs[i := dirs[i][RecordName(r.local, r.target) := r]];
          return Some(i);
        }
      }
      return None;
    }

    /** Its removal takes only this holder's own record: the port may have been used again. */
    method Remove(r: Record, at: nat)
      requires at < |dirs| && forall d <- dirs :: WellNamed(d)
      modifies this
      ensures var name := RecordName(r.local, r.target);
              var cur := old(dirs)[at];
              dirs == if name in cur && cur[name].pid == r.pid && cur[name].since == r.since
                      then old(dirs)[at := cur - {name}] else old(dirs)
      ensures forall d <- dirs :: WellNamed(d)
    {
      hide WellNamed;
      var name := RecordName(r.local, r.target);
      if name in dirs[at] && dirs[at][name].pid == r.pid && dirs[at][name].since == r.since {
        FewerStayWellNamed(dirs, at, name);
        dirs := dirs[at := dirs[at] - {name}];
      }
    }

    /** A query whose order is not known is tried both ways round, each an exact match of four numbers. */
    method LookupEither(client: AddrPort, server: AddrPort, alive: nat -> bool) returns (r: Option<Record>)
      ensures r.Some? ==> alive(r.value.pid) && (r.value.local, r.value.target) in {(client, server), (server, client)}
      ensures r.None? <==> forall i | 0 <= i < |dirs| ::
                !Exact(dirs[i], client, server, alive) && !Exact(dirs[i], server, client, alive)
    {
      r := LookupExact(dirs, client, server, alive);
      if r.None? {
        r := LookupExact(dirs, server, client, alive);
      }
    }
  }
}
