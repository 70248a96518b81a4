/** The rotating address lists of src/iplist.cc (`iplist`, `listeniplist`). */
module IpLists {
  import opened Strings
  import opened StringLists

  datatype Ip = Ip(ip: string, port: int)

  /** The list `readlist` builds: the ports are numbers in the second list, or all 0. */
  function Paired(ips: seq<string>, ports: Option<seq<string>>): seq<Ip>
    requires ports.Some? ==> |ips| == |ports.value|
  {
    PairedTo(ips, ports, |ips|)
  }

  function PairedTo(ips: seq<string>, ports: Option<seq<string>>, n: nat): (l: seq<Ip>)
    requires n <= |ips| && (ports.Some? ==> |ips| == |ports.value|)
    ensures |l| == n
  {
    if n == 0 then []
    else PairedTo(ips, ports, n - 1) + [Ip(ips[n - 1], if ports.None? then 0 else Atoi(ports.value[n - 1]))]
  }

  lemma {:induction false} PairedInPlace(ips: seq<string>, ports: Option<seq<string>>, n: nat, i: nat)
    requires i < n <= |ips| && (ports.Some? ==> |ips| == |ports.value|)
    ensures PairedTo(ips, ports, n)[i] == Ip(ips[i], if ports.None? then 0 else Atoi(ports.value[i]))
  {
    if i < n - 1 {
      PairedInPlace(ips, ports, n - 1, i);
    }
  }

  /** Each address gets the port that is printed at its own place in the other list, and 0 without one. */
  lemma PortsInPlace(ips: seq<string>, ports: Option<seq<string>>, i: nat, port: int, rest: string)
    requires i < |ips| && (ports.Some? ==> |ips| == |ports.value|) && (rest == "" || !IsDigit(rest[0]))
    requires ports.Some? ==> ports.value[i] == DecInt(port) + rest
    ensures Paired(ips, ports)[i] == Ip(ips[i], if ports.Some? then port else 0)
  {
    PairedInPlace(ips, ports, |ips|, i);
    AtoiOfDec(port, rest);
  }

  /** Port list "0" stands for "no ports". */
  function Ports(portlist: string): Option<seq<string>> {
    if portlist == "0" then None else Some(Tokens(portlist))
  }

  /** An address list that is not empty, with as many ports if any. */
  predicate GoodLists(iplist: string, portlist: string) {
    iplist != "" && (portlist == "0" || |Tokens(iplist)| == |Tokens(portlist)|)
  }

  class IpList {
    var List: seq<Ip>
    var ip_list: seq<string>
    var port_list: seq<string>
    var counter: nat

    constructor ()
      ensures List == []
    {
      List, ip_list, port_list, counter := [], [], [], 0;
    }

    /** `getip` indexes `List[counter]`, so it may only be called in this state. */
    ghost predicate Ready()
      reads this
    {
      counter < |List|
    }

    method ParseString(s: string, list: seq<string>) returns (list': seq<string>)
      ensures list' == list + Tokens(s)
    {
      list' := list;
      if s == "" {
        return;
      }
      var rest := s + ",";
      var pos := IndexOf(rest, ',');
      SplitComma(s);
      IndexOfFirst(rest, ',');
      while pos != |rest|
        invariant pos == IndexOf(rest, ',') && (',' in rest <==> pos < |rest|)
        invariant rest != "" ==> rest[|rest| - 1] == ','
        invariant list' + Closed(rest) == list + Tokens(s)
        decreases |rest|
      {
        var tmp := rest[..pos];
        ghost var after := Closed(rest[pos + 1..]);
        assert Closed(rest) == [tmp] + after;
        assert list' + ([tmp] + after) == (list' + [tmp]) + after;
        list' := list' + [tmp];
        rest := rest[pos + 1..];
        pos := IndexOf(rest, ',');
        IndexOfFirst(rest, ',');
      }
      assert rest == "";
    }

    /** On failure the list is already cleared but `counter` is not, so a list that was in use
        before a failed reload is not `Ready` any more. */
    method ReadList(iplist: string, portlist: string) returns (ok: bool)
      modifies this
      ensures ok <==> GoodLists(iplist, portlist)
      ensures ok ==> Ready() && counter == 0 && List == Paired(Tokens(iplist), Ports(portlist))
      ensures !ok ==> List == [] && !Ready() && counter == old(counter)
    {
      List := [];
      ip_list := [];
      port_list := [];
      ip_list := ParseString(iplist, ip_list);
      if portlist != "0" {
        port_list := ParseString(portlist, port_list);
        assert port_list == Tokens(portlist);
        if |ip_list| != |port_list| {
          return false;
        }
      }
      ghost var (ips, ports) := (Tokens(iplist), Ports(portlist));
      assert ip_list == ips;
      if |ip_list| == 0 {
        return false;
      }
      counter := 0;
      for i := 0 to |ip_list|
        invariant counter == 0 && ip_list == ips
        invariant portlist != "0" ==> Some(port_list) == ports && |port_list| == |ip_list|
        invariant portlist == "0" ==> ports == None
        invariant List == PairedTo(ips, ports, i)
      {
        var port := 0;
        if portlist != "0" {
          port := Atoi(port_list[i]);
        }
        List := List + [Ip(ip_list[i], port)];
      }
      return true;
    }

    method GetIp() returns (ip: string, port: int)
      requires Ready()
      modifies `counter
      ensures Ready()
      ensures Ip(ip, port) == List[old(counter)]
      ensures counter == Next(|List|, old(counter))
    {
      var tmp := List[counter];
      counter := counter + 1;
      if counter == |List| {
        counter := 0;
      }
      ip := tmp.ip;
      port := tmp.port;
    }

    /** A program that reads and uses the list, ignoring whether reading succeeds. */
    method Use(uses: seq<Access>)
      requires List == [] && counter == 0 && Covered(uses)
      modifies this
      ensures Rotation(List, counter) == After(uses)
    {
      for k := 0 to |uses|
        invariant Rotation(List, counter) == After(uses[..k])
      {
        var before := uses[..k];
        assert uses[..k + 1][..k] == before;
        SafeExactly(before);
        CoveredPrefix(uses, k);
        match uses[k] {
          case Read(iplist, portlist) => var ok := ReadList(iplist, portlist);
          case Get => var ip, port := GetIp();
        }
      }
      assert uses[..|uses|] == uses;
    }

    /** `calls` new connections in a row, each given the next address. */
    method ServeAll(calls: nat) returns (served: seq<Ip>)
      requires Ready() && counter == 0
      modifies `counter
      ensures |served| == calls
      ensures forall k | 0 <= k < calls :: served[k] == List[k % |List|]
    {
      served := [];
      for k := 0 to calls
        invariant Ready() && List == old(List)
        invariant counter == Position(|List|, 0, k)
        invariant |served| == k
        invariant forall j | 0 <= j < k :: served[j] == List[j % |List|]
      {
        PositionIsModulo(|List|, 0, k);
        var ip, port := GetIp();
        served := served + [Ip(ip, port)];
      }
    }
  }

  // Round robin over any number of calls

  function Next(n: nat, c: nat): (c': nat)
    requires c < n
    ensures c' < n
  {
    if c + 1 == n then 0 else c + 1
  }

  /** The counter after `k` calls, starting from `c`. */
  function Position(n: nat, c: nat, k: nat): (p: nat)
    requires c < n
    ensures p < n
  {
    if k == 0 then c else Next(n, Position(n, c, k - 1))
  }

  function Wraps(n: nat, c: nat, k: nat): nat
    requires c < n
  {
    if k == 0 then 0
    else Wraps(n, c, k - 1) + (if Position(n, c, k - 1) + 1 == n then 1 else 0)
  }

  /** How many of the `k` calls starting at `c` hand out list position `i`. */
  function Times(n: nat, c: nat, k: nat, i: nat): nat
    requires c < n
  {
    if k == 0 then 0
    else Times(n, c, k - 1, i) + (if Position(n, c, k - 1) == i then 1 else 0)
  }

  lemma {:induction false} MultipleModulo(n: nat, q: nat, p: nat)
    requires p < n
    ensures (q * n + p) % n == p
  {
    if q > 0 {
      MultipleModulo(n, q - 1, p);
      var m := (q - 1) * n + p;
      assert q * n + p == m + n;
      assert (m + n) % n == m % n by {
        assert (m + n) == (m / n + 1) * n + m % n;
        DivisionUnique(n, m + n, m / n + 1, m % n);
      }
    }
  }

  lemma DivisionUnique(n: nat, x: nat, q: nat, r: nat)
    requires r < n
    requires x == q * n + r
    ensures x % n == r
  {
    var d := x / n - q;
    assert x == (x / n) * n + x % n;
    assert (x / n) * n == q * n + d * n;
    assert d * n == r - x % n;
    MultipleBound(d, n);
  }

  lemma MultipleBound(d: int, n: nat)
    ensures d >= 1 ==> d * n >= n
    ensures d <= -1 ==> d * n <= 0 - n
  {
    if d >= 1 {
      assert (d - 1) * n >= 0;
    } else if d <= -1 {
      assert (d + 1) * n <= 0;
    }
  }

  lemma {:induction false} LapsAndPosition(n: nat, c: nat, k: nat)
    requires c < n
    ensures c + k == Wraps(n, c, k) * n + Position(n, c, k)
  {
    if k > 0 {
      LapsAndPosition(n, c, k - 1);
      var w := Wraps(n, c, k - 1);
      assert (w + 1) * n == w * n + n;
    }
  }

  lemma PositionIsModulo(n: nat, c: nat, k: nat)
    requires c < n
    ensures Position(n, c, k) == (c + k) % n
  {
    LapsAndPosition(n, c, k);
    MultipleModulo(n, Wraps(n, c, k), Position(n, c, k));
  }

  /** Position `i` is served once per completed lap, give or take the current one. */
  lemma {:induction false} TimesServed(n: nat, c: nat, k: nat, i: nat)
    requires c < n && i < n
    ensures Times(n, c, k, i)
         == Wraps(n, c, k) + (if i < Position(n, c, k) then 1 else 0) - (if i < c then 1 else 0)
  {
    if k > 0 {
      TimesServed(n, c, k - 1, i);
    }
  }

  /** Fairness: in any window of calls, two positions are served equally often, up to one. */
  lemma WindowIsFair(n: nat, c: nat, k: nat, i: nat, j: nat)
    requires c < n && i < n && j < n
    ensures -1 <= Times(n, c, k, i) - Times(n, c, k, j) <= 1
  {
    TimesServed(n, c, k, i);
    TimesServed(n, c, k, j);
  }

  // Reading again

  /** The list and the place in it. */
  datatype Rotation = Rotation(list: seq<Ip>, counter: nat)
  {
    predicate Ready() {
      counter < |list|
    }
  }

  datatype Access = Read(iplist: string, portlist: string) | Get

  /** What an access leads to; indexing beyond the list is left open. */
  function Accessed(r: Rotation, a: Access): Rotation {
    match a
    case Read(iplist, portlist) =>
      if GoodLists(iplist, portlist) then Rotation(PairedLists(iplist, portlist), 0) else r.(list := [])
    case Get => if r.Ready() then r.(counter := Next(|r.list|, r.counter)) else r
  }

  function PairedLists(iplist: string, portlist: string): seq<Ip>
    requires GoodLists(iplist, portlist)
  {
    Paired(Tokens(iplist), Ports(portlist))
  }

  /** From the start of the program. */
  function After(uses: seq<Access>): Rotation {
    if uses == [] then Rotation([], 0) else Accessed(After(uses[..|uses| - 1]), uses[|uses| - 1])
  }

  /** Some list was read, and the latest one with success. */
  predicate LatestGood(uses: seq<Access>) {
    uses != [] &&
      match uses[|uses| - 1]
      case Read(iplist, portlist) => GoodLists(iplist, portlist)
      case Get => LatestGood(uses[..|uses| - 1])
  }

  /** Every `getip` comes when the latest `readlist` has succeeded. */
  predicate Covered(uses: seq<Access>) {
    forall k | 0 <= k < |uses| && uses[k].Get? :: LatestGood(uses[..k])
  }

  lemma CoveredPrefix(uses: seq<Access>, k: nat)
    requires Covered(uses) && k < |uses|
    ensures Covered(uses[..k]) && (uses[k].Get? ==> LatestGood(uses[..k]))
  {
    forall j | 0 <= j < k && uses[j].Get? ensures LatestGood(uses[..k][..j]) {
      assert uses[..k][..j] == uses[..j];
    }
  }

  lemma TokensNotEmpty(s: string)
    requires s != ""
    ensures |Tokens(s)| > 0
  {
  }

  /** After any history the next `getip` finds an entry exactly when the latest `readlist` succeeded. A
      reload whose list is bad takes the addresses away, and nobody looks at its result. */
  lemma {:induction false} SafeExactly(uses: seq<Access>)
    ensures After(uses).Ready() <==> LatestGood(uses)
  {
    if uses != [] {
      var (init, last) := (uses[..|uses| - 1], uses[|uses| - 1]);
      SafeExactly(init);
      if last.Read? && GoodLists(last.iplist, last.portlist) {
        TokensNotEmpty(last.iplist);
        assert |After(uses).list| == |Tokens(last.iplist)|;
      }
    }
  }

  /** So a program gets by without an access beyond the list exactly when each of its calls is covered. */
  lemma AlwaysSafeExactly(uses: seq<Access>)
    ensures (forall k | 0 <= k < |uses| && uses[k].Get? :: After(uses[..k]).Ready()) <==> Covered(uses)
  {
    forall k | 0 <= k < |uses| && uses[k].Get? ensures After(uses[..k]).Ready() <==> LatestGood(uses[..k]) {
      SafeExactly(uses[..k]);
    }
  }

  /** The addresses are gone after a reload that names none, whatever happened before. */
  lemma BadReloadTakesAll(uses: seq<Access>, portlist: string)
    ensures After(uses + [Read("", portlist)]).list == [] && !After(uses + [Read("", portlist)]).Ready()
  {
    var more := uses + [Read("", portlist)];
    assert more[..|more| - 1] == uses;
  }
}
