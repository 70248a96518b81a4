/** The 227 reply of RFC 959 (sections 4.1.2 and 4.2), its decoder, the PORT decoder, and the
    address check in `Write`: src/controlthread.cc and src/tools.cc. */
module Passive {
  import opened Strings

  // replaceall

  function Replaced(s: string, src: char, target: string): string {
    if s == "" then ""
    else (if s[0] == src then target else [s[0]]) + Replaced(s[1..], src, target)
  }

  lemma {:induction false} ReplacedConcat(a: string, b: string, src: char, target: string)
    ensures Replaced(a + b, src, target) == Replaced(a, src, target) + Replaced(b, src, target)
  {
    if a == "" {
      assert a + b == b;
    } else {
      assert (a + b)[1..] == a[1..] + b;
      ReplacedConcat(a[1..], b, src, target);
    }
  }

  lemma {:induction false} ReplacedAbsent(s: string, src: char, target: string)
    requires src !in s
    ensures Replaced(s, src, target) == s
  {
    if s != "" {
      ReplacedAbsent(s[1..], src, target);
    }
  }

  lemma ReplacedStep(s: string, pos: nat, src: char, target: string)
    requires pos < |s| && s[pos] == src && src !in target
    ensures Replaced(s[..pos] + target + s[pos + 1..], src, target) == Replaced(s, src, target)
  {
    var (a, b) := (s[..pos], s[pos + 1..]);
    assert s == a + ([src] + b) && ([src] + b)[1..] == b;
    ReplacedConcat(a, [src] + b, src, target);
    assert a + target + b == a + (target + b);
    ReplacedConcat(a, target + b, src, target);
    ReplacedConcat(target, b, src, target);
    ReplacedAbsent(target, src, target);
  }

  lemma StillFree(a: string, s: string, c: char)
    requires a <= s && c !in a
    ensures IndexOf(s, c) >= |a|
  {
    IndexOfFirst(s, c);
    var i := IndexOf(s, c);
    assert forall j | 0 <= j < |a| :: s[j] == a[j];
  }

  /** Repeats find, erase and insert until no `src` is left. A target that contains `src` would
      bring it back for ever; yatb replaces "." by ",". */
  method ReplaceAll(res: string, src: char, target: string) returns (r: string)
    requires src !in target
    ensures r == Replaced(res, src, target)
    ensures src !in r
  {
    r := res;
    var pos := IndexOf(r, src);
    IndexOfFirst(r, src);
    while pos != |r|
      invariant pos == IndexOf(r, src)
      invariant (pos < |r| ==> r[pos] == src) && src !in r[..pos]
      invariant Replaced(r, src, target) == Replaced(res, src, target)
      decreases |r| - pos
    {
      ReplacedStep(r, pos, src, target);
      ghost var before := r;
      r := r[..pos] + r[pos + 1..];
      r := r[..pos] + target + r[pos..];
      assert r == before[..pos] + target + before[pos + 1..];
      pos := IndexOf(r, src);
      IndexOfFirst(r, src);
      assert pos >= |before[..IndexOf(before, src)]| + |target| by {
        StillFree(before[..IndexOf(before, src)] + target, r, src);
      }
    }
    assert r[..pos] == r;
    ReplacedAbsent(r, src, target);
  }

  // CreatePsvCommand

  const PREFIX := "227 Entering Passive Mode "

  /** C++ division and remainder, which truncate toward zero. */
  function TruncDiv(x: int, y: nat): int
    requires y > 0
  {
    if x < 0 then -((-x) / y) else x / y
  }

  function TruncMod(x: int, y: nat): int
    requires y > 0
  {
    if x < 0 then -((-x) % y) else x % y
  }

  /** The two numbers that stand for a port. */
  function PortFields(port: int): string {
    DecInt(TruncDiv(port, 256)) + "," + DecInt(TruncMod(port, 256))
  }

  function ReplaceFirst(s: string, c: char, d: char): Option<string> {
    var i := IndexOf(s, c);
    if i == |s| then None else Some(s[..i] + [d] + s[i + 1..])
  }

  /** `n` single replacements in a row; None when one finds nothing to replace. */
  function ReplaceTimes(s: string, c: char, d: char, n: nat): Option<string>
    decreases n
  {
    if n == 0 then Some(s)
    else
      match ReplaceFirst(s, c, d)
      case None => None
      case Some(s') => ReplaceTimes(s', c, d, n - 1)
  }

  lemma ReplaceFirstExactly(s: string, c: char, d: char)
    requires c != d
    ensures var r := ReplaceFirst(s, c, d);
      && (r.Some? <==> multiset(s)[c] >= 1)
      && (r.Some? ==> |r.value| == |s| && multiset(r.value)[c] == multiset(s)[c] - 1)
  {
    var i := IndexOf(s, c);
    IndexOfFirst(s, c);
    if i < |s| {
      var (a, b) := (s[..i], s[i + 1..]);
      assert s == a + [c] + b;
      assert multiset(s) == multiset(a) + multiset{c} + multiset(b);
      assert multiset(a + [d] + b) == multiset(a) + multiset{d} + multiset(b);
    }
  }

  /** They can be done exactly if the text has that many of the character, and each removes one. */
  lemma {:induction false} ReplaceTimesExactly(s: string, c: char, d: char, n: nat)
    requires c != d
    ensures var r := ReplaceTimes(s, c, d, n);
      && (r.Some? <==> multiset(s)[c] >= n)
      && (r.Some? ==> |r.value| == |s| && multiset(r.value)[c] == multiset(s)[c] - n)
    decreases n
  {
    if n > 0 {
      ReplaceFirstExactly(s, c, d);
      if ReplaceFirst(s, c, d).Some? {
        ReplaceTimesExactly(ReplaceFirst(s, c, d).value, c, d, n - 1);
      }
    }
  }

  /** The 227 reply for an address text; None is the exception that `string::replace` raises
      when one of the three dots is missing. */
  function PsvReply(ip: string, port: int): Option<string> {
    match ReplaceTimes(ip, '.', ',', 3)
    case None => None
    case Some(host) =>
      Some(PREFIX + "(" + (host + "," + PortFields(port) + ")\r\n"))
  }

  /** Where the advertised address comes from. `natResolved` is what the resolver makes of the
      configured NAT name, `interfaceIp` what the interface reports, if anything. */
  datatype Advertised = Advertised(natPasvIp: string, natResolved: string, listenIp: string, interfaceIp: Option<string>)
  {
    function Address(): string {
      if natPasvIp != "" then natResolved
      else if listenIp != "" then listenIp
      else if interfaceIp.Some? then interfaceIp.value
      else "0.0.0.0"
    }
  }

  method CreatePsvCommand(adv: Advertised, port: int) returns (r: Option<string>)
    ensures r == PsvReply(adv.Address(), port)
  {
    var newpassivecmd := PREFIX + "(";
    var tmpip: string;
    if adv.natPasvIp != "" {
      tmpip := adv.natResolved;
    } else if adv.listenIp != "" {
      tmpip := adv.listenIp;
    } else if adv.interfaceIp.Some? {
      tmpip := adv.interfaceIp.value;
    } else {
      tmpip := "0.0.0.0";
    }
    for k := 0 to 3
      invariant ReplaceTimes(tmpip, '.', ',', 3 - k) == ReplaceTimes(adv.Address(), '.', ',', 3)
    {
      var startpos := IndexOf(tmpip, '.');
      if startpos == |tmpip| {
        return None;
      }
      tmpip := tmpip[..startpos] + "," + tmpip[startpos + 1..];
    }
    newpassivecmd := newpassivecmd + (tmpip + ",");
    var ss := DecInt(TruncDiv(port, 256)) + "," + DecInt(TruncMod(port, 256)) + ")\r\n";
    newpassivecmd := newpassivecmd + ss;
    Regroup(PREFIX + "(", tmpip, DecInt(TruncDiv(port, 256)), DecInt(TruncMod(port, 256)), ")\r\n");
    return Some(newpassivecmd);
  }

  lemma Regroup(prefix: string, host: string, high: string, low: string, end: string)
    ensures (prefix + (host + ",")) + (high + "," + low + end) == prefix + (host + "," + (high + "," + low) + end)
  {
  }

  /** The choice of the address, and what a client is told to connect to: a resolved NAT name is preferred to the
      address for listening, and that to the address of the interface; without any it is four zeros. */
  lemma AdvertisedInOrder(adv: Advertised, a: nat, b: nat, c: nat, d: nat, port: nat)
    requires Dec(a) + "." + Dec(b) + "." + Dec(c) + "." + Dec(d)
          == if adv.natPasvIp != "" then adv.natResolved
             else if adv.listenIp != "" then adv.listenIp
             else if adv.interfaceIp.Some? then adv.interfaceIp.value
             else "0.0.0.0"
    ensures PsvReply(adv.Address(), port) ==
      Some("227 Entering Passive Mode (" + Dec(a) + "," + Dec(b) + "," + Dec(c) + "," + Dec(d)
           + "," + Dec(port / 256) + "," + Dec(port % 256) + ")\r\n")
  {
    var q := Quad(a, b, c, d);
    assert q.Dotted() == adv.Address();
    QuadThreeCommas(q);
    ReplyInOnePiece(Dec(a), Dec(b), Dec(c), Dec(d), Dec(port / 256), Dec(port % 256));
  }

  lemma ReplyInOnePiece(a: string, b: string, c: string, d: string, high: string, low: string)
    ensures PREFIX + "(" + (Fields(a, b, c, d) + "," + (high + "," + low) + ")\r\n")
         == "227 Entering Passive Mode (" + a + "," + b + "," + c + "," + d + "," + high + "," + low + ")\r\n"
  {
    assert PREFIX + "(" == "227 Entering Passive Mode (";
  }

  // The decoders

  /** `ParsePsvCommand`: the dotted address and port of a 227 reply. */
  function ParsePsvCommand(text: string): Option<(string, int)> {
    match PsvFields(text)
    case None => None
    case Some(f) => Some((Dots(f[0], f[1], f[2], f[3]), Atoi(f[4]) * 256 + Atoi(f[5])))
  }

  /** The six texts between the parentheses; the two for the port must not be empty. */
  function PsvFields(text: string): (r: Option<seq<string>>)
    ensures r.Some? ==> |r.value| == 6
  {
    var start := IndexOf(text, '(');
    var end := IndexOf(text, ')');
    if start == |text| || end == |text| then None
    else
      var tmp := Substr(text, start + 1, end - start - 1);
      match CutFields(tmp, 5)
      case None => None
      case Some(f) => if f[4] == "" || f[5] == "" then None else Some(f)
  }

  /** The text before the first comma and the text after it. */
  function CutField(s: string): Option<(string, string)> {
    var i := IndexOf(s, ',');
    if i == |s| then None else Some((s[..i], s[i + 1..]))
  }

  /** Cuts `n` fields off the front of `s`; the last piece is the remaining text. */
  function CutFields(s: string, n: nat): (r: Option<seq<string>>)
    ensures r.Some? ==> |r.value| == n + 1
  {
    if n == 0 then Some([s])
    else
      match CutField(s)
      case None => None
      case Some((field, rest)) =>
        match CutFields(rest, n - 1)
        case None => None
        case Some(fields) => Some([field] + fields)
  }

  /** `ParsePortCommand`: the dotted address and port of a PORT command. */
  function ParsePortCommand(text: string): Option<(string, int)> {
    match PortCommandFields(text)
    case None => None
    case Some(f) => Some((f[0], 256 * Atoi(f[1]) + Atoi(f[2])))
  }

  function PortCommandFields(text: string): (r: Option<seq<string>>)
    ensures r.Some? ==> |r.value| == 3
  {
    var sp := IndexOf(text, ' ');
    if sp == |text| then None
    else
      match ReplaceTimes(text[sp + 1..], ',', '.', 3)
      case None => None
      case Some(dotted) =>
        match CutFields(dotted, 2)
        case None => None
        case Some(f) => if f[1] == "" || f[2] == "" then None else Some(f)
  }

  // Addresses

  datatype Quad = Quad(a: nat, b: nat, c: nat, d: nat)
  {
    /** `inet_ntoa`. */
    function Dotted(): string {
      Dots(Dec(a), Dec(b), Dec(c), Dec(d))
    }

    function Commas(): string {
      Fields(Dec(a), Dec(b), Dec(c), Dec(d))
    }
  }

  function Dots(a: string, b: string, c: string, d: string): string {
    a + "." + b + "." + c + "." + d
  }

  function Fields(a: string, b: string, c: string, d: string): string {
    a + "," + b + "," + c + "," + d
  }

  lemma DecLacks(n: int, c: char)
    requires !IsDigit(c) && c != '-'
    ensures c !in DecInt(n)
  {
    DecDigits(if n < 0 then -n else n);
  }

  lemma OctetsLack(q: Quad, x: char)
    requires !IsDigit(x)
    ensures x !in Dec(q.a) && x !in Dec(q.b) && x !in Dec(q.c) && x !in Dec(q.d)
  {
    DecDigits(q.a);
    DecDigits(q.b);
    DecDigits(q.c);
    DecDigits(q.d);
  }

  lemma ReplaceFirstAt(a: string, c: char, b: string, d: char)
    requires c !in a
    ensures ReplaceFirst(a + [c] + b, c, d) == Some(a + [d] + b)
  {
    IndexOfAppend(a, c, b);
  }

  lemma ReplaceAgain(a: string, c: char, b: string, d: char, n: nat)
    requires c !in a
    ensures ReplaceTimes(a + [c] + b, c, d, n + 1) == ReplaceTimes(a + [d] + b, c, d, n)
  {
    ReplaceFirstAt(a, c, b, d);
  }

  lemma DotsToFields(a: string, b: string, c: string, d: string)
    requires '.' !in a && '.' !in b && '.' !in c && '.' !in d
    ensures ReplaceTimes(Dots(a, b, c, d), '.', ',', 3) == Some(Fields(a, b, c, d))
  {
    var r2 := c + "." + d;
    var r1 := b + "." + r2;
    assert Dots(a, b, c, d) == a + ['.'] + r1;
    ReplaceAgain(a, '.', r1, ',', 2);
    assert a + [','] + r1 == (a + "," + b) + ['.'] + r2;
    ReplaceAgain(a + "," + b, '.', r2, ',', 1);
    assert (a + "," + b) + [','] + r2 == (a + "," + b + "," + c) + ['.'] + d;
    ReplaceAgain(a + "," + b + "," + c, '.', d, ',', 0);
    assert (a + "," + b + "," + c) + [','] + d == Fields(a, b, c, d);
  }

  /** Three single replacements turn a dotted quad into its comma form. */
  lemma QuadThreeCommas(q: Quad)
    ensures ReplaceTimes(q.Dotted(), '.', ',', 3) == Some(q.Commas())
  {
    OctetsLack(q, '.');
    DotsToFields(Dec(q.a), Dec(q.b), Dec(q.c), Dec(q.d));
  }

  lemma ReplacedField(a: string, b: string)
    requires '.' !in a
    ensures Replaced(a + "." + b, '.', ",") == a + "," + Replaced(b, '.', ",")
  {
    assert a + "." + b == a + ("." + b) && ("." + b)[1..] == b;
    ReplacedConcat(a, "." + b, '.', ",");
    ReplacedAbsent(a, '.', ",");
  }

  lemma DotsReplaced(a: string, b: string, c: string, d: string)
    requires '.' !in a && '.' !in b && '.' !in c && '.' !in d
    ensures Replaced(Dots(a, b, c, d), '.', ",") == Fields(a, b, c, d)
  {
    assert Dots(a, b, c, d) == a + "." + (b + "." + (c + "." + d));
    ReplacedField(a, b + "." + (c + "." + d));
    ReplacedField(b, c + "." + d);
    ReplacedField(c, d);
    ReplacedAbsent(d, '.', ",");
    assert a + "," + (b + "," + (c + "," + d)) == Fields(a, b, c, d);
  }

  /** `replaceall` with "." and "," agrees with the three single replacements. */
  lemma QuadReplaced(q: Quad)
    ensures Replaced(q.Dotted(), '.', ",") == q.Commas()
  {
    OctetsLack(q, '.');
    DotsReplaced(Dec(q.a), Dec(q.b), Dec(q.c), Dec(q.d));
  }

  lemma CutFieldAt(a: string, rest: string)
    requires ',' !in a
    ensures CutField(a + "," + rest) == Some((a, rest))
  {
    IndexOfAppend(a, ',', rest);
  }

  lemma CutFieldsStep(field: string, rest: string, n: nat, fields: seq<string>)
    requires ',' !in field
    requires CutFields(rest, n) == Some(fields)
    ensures CutFields(field + "," + rest, n + 1) == Some([field] + fields)
  {
    CutFieldAt(field, rest);
  }

  lemma AllFreeTail(ts: seq<string>, c: char)
    requires |ts| > 1 && AllFree(ts, c)
    ensures c !in ts[0] && AllFree(ts[1..], c)
  {
    assert ts[0] in ts;
    assert forall t | t in ts[1..] :: t in ts;
  }

  lemma {:induction false} CutFieldsOfJoin(ts: seq<string>)
    requires |ts| >= 1 && AllFree(ts, ',')
    ensures CutFields(Join(ts, ','), |ts| - 1) == Some(ts)
  {
    var rest := ts[1..];
    if |ts| == 1 {
      assert ts == [ts[0]];
    } else {
      assert ts == [ts[0]] + rest;
      AllFreeTail(ts, ',');
      CutFieldsOfJoin(rest);
      CutFieldsStep(ts[0], Join(rest, ','), |ts| - 2, rest);
    }
  }

  lemma JoinSix(a: string, b: string, c: string, d: string, p1: string, p2: string)
    ensures Join([a, b, c, d, p1, p2], ',') == Fields(a, b, c, d) + "," + (p1 + "," + p2)
  {
    var r4 := p1 + "," + p2;
    var r3 := d + "," + r4;
    var r2 := c + "," + r3;
    assert [p1, p2][1..] == [p2];
    assert [d, p1, p2][1..] == [p1, p2];
    assert [c, d, p1, p2][1..] == [d, p1, p2];
    assert [b, c, d, p1, p2][1..] == [c, d, p1, p2];
    assert [a, b, c, d, p1, p2][1..] == [b, c, d, p1, p2];
    assert Join([p2], ',') == p2;
    assert Join([p1, p2], ',') == r4;
    assert Join([d, p1, p2], ',') == r3;
    assert Join([c, d, p1, p2], ',') == r2;
  }

  lemma TruncatedParts(port: int)
    ensures TruncDiv(port, 256) * 256 + TruncMod(port, 256) == port
  {
  }

  /** The bytes between the parentheses of a reply. */
  function Body(q: Quad, port: int): string {
    q.Commas() + "," + PortFields(port)
  }

  lemma FieldsLack(a: string, b: string, c: string, d: string, x: char)
    requires x !in a && x !in b && x !in c && x !in d && x != ','
    ensures x !in Fields(a, b, c, d)
  {
  }

  lemma BodyLacks(q: Quad, port: int, x: char)
    requires !IsDigit(x) && x != '-' && x != ','
    ensures x !in Body(q, port)
  {
    OctetsLack(q, x);
    FieldsLack(Dec(q.a), Dec(q.b), Dec(q.c), Dec(q.d), x);
    DecLacks(TruncDiv(port, 256), x);
    DecLacks(TruncMod(port, 256), x);
  }

  lemma ReplyShape(q: Quad, port: int)
    ensures PsvReply(q.Dotted(), port) == Some(PREFIX + "(" + (Body(q, port) + ")\r\n"))
  {
    QuadThreeCommas(q);
  }

  lemma BetweenParentheses(prefix: string, body: string, rest: string)
    requires '(' !in prefix && ')' !in prefix && ')' !in body
    requires rest != "" && rest[0] == ')'
    ensures var text := prefix + "(" + (body + rest);
      && IndexOf(text, '(') == |prefix|
      && IndexOf(text, ')') == |prefix| + 1 + |body|
      && text[|prefix| + 1..|prefix| + 1 + |body|] == body
  {
    var text := prefix + "(" + (body + rest);
    IndexOfAppend(prefix, '(', body + rest);
    IndexOfAppend(prefix + "(" + body, ')', rest[1..]);
    assert text == (prefix + "(" + body) + [')'] + rest[1..];
  }

  lemma DecodeReply(prefix: string, a: string, b: string, c: string, d: string, p1: string, p2: string)
    requires AllFree([a, b, c, d, p1, p2], ',') && AllFree([a, b, c, d, p1, p2], ')')
    requires '(' !in prefix && ')' !in prefix
    ensures PsvFields(prefix + "(" + (Fields(a, b, c, d) + "," + (p1 + "," + p2) + ")\r\n"))
         == if p1 == "" || p2 == "" then None else Some([a, b, c, d, p1, p2])
  {
    var ts := [a, b, c, d, p1, p2];
    var body := Join(ts, ',');
    JoinSix(a, b, c, d, p1, p2);
    JoinFree(ts, ',', ')');
    CutFieldsOfJoin(ts);
    DecodeBody(prefix, body, ts);
  }

  lemma DecodeBody(prefix: string, body: string, f: seq<string>)
    requires '(' !in prefix && ')' !in prefix && ')' !in body
    requires CutFields(body, 5) == Some(f)
    ensures PsvFields(prefix + "(" + (body + ")\r\n")) == if f[4] == "" || f[5] == "" then None else Some(f)
  {
    BetweenParentheses(prefix, body, ")\r\n");
    DecodeAt(prefix + "(" + (body + ")\r\n"), |prefix|, body, f);
  }

  lemma CutOut(text: string, start: nat, body: string)
    requires start + 1 + |body| < |text| && text[start + 1..start + 1 + |body|] == body
    ensures Substr(text, start + 1, |body|) == body
  {
  }

  lemma DecodeAt(text: string, start: nat, body: string, f: seq<string>)
    requires IndexOf(text, '(') == start && IndexOf(text, ')') == start + 1 + |body| < |text|
    requires text[start + 1..start + 1 + |body|] == body
    requires CutFields(body, 5) == Some(f)
    ensures PsvFields(text) == if f[4] == "" || f[5] == "" then None else Some(f)
  {
    CutOut(text, start, body);
  }

  lemma PrefixClean()
    ensures '(' !in PREFIX && ')' !in PREFIX
  {
  }

  lemma PortTexts(port: int)
    ensures Atoi(DecInt(TruncDiv(port, 256))) * 256 + Atoi(DecInt(TruncMod(port, 256))) == port
    ensures DecInt(TruncDiv(port, 256)) != "" && DecInt(TruncMod(port, 256)) != ""
  {
    var (q, r) := (TruncDiv(port, 256), TruncMod(port, 256));
    AtoiOfDec(q, "");
    AtoiOfDec(r, "");
    assert DecInt(q) + "" == DecInt(q) && DecInt(r) + "" == DecInt(r);
    TruncatedParts(port);
  }

  lemma SixFree(a: string, b: string, c: string, d: string, p1: string, p2: string, x: char)
    requires x !in a && x !in b && x !in c && x !in d && x !in p1 && x !in p2
    ensures AllFree([a, b, c, d, p1, p2], x)
  {
  }

  lemma NumbersFree(q: Quad, port: int, x: char)
    requires !IsDigit(x) && x != '-'
    ensures AllFree([Dec(q.a), Dec(q.b), Dec(q.c), Dec(q.d), DecInt(TruncDiv(port, 256)), DecInt(TruncMod(port, 256))], x)
  {
    OctetsLack(q, x);
    DecLacks(TruncDiv(port, 256), x);
    DecLacks(TruncMod(port, 256), x);
    SixFree(Dec(q.a), Dec(q.b), Dec(q.c), Dec(q.d), DecInt(TruncDiv(port, 256)), DecInt(TruncMod(port, 256)), x);
  }

  lemma ReplyFields(q: Quad, port: int)
    ensures PsvReply(q.Dotted(), port).Some?
    ensures PsvFields(PsvReply(q.Dotted(), port).value)
         == Some([Dec(q.a), Dec(q.b), Dec(q.c), Dec(q.d), DecInt(TruncDiv(port, 256)), DecInt(TruncMod(port, 256))])
  {
    ReplyShape(q, port);
    NumbersFree(q, port, ',');
    NumbersFree(q, port, ')');
    PortTexts(port);
    PrefixClean();
    DecodeReply(PREFIX, Dec(q.a), Dec(q.b), Dec(q.c), Dec(q.d),
                DecInt(TruncDiv(port, 256)), DecInt(TruncMod(port, 256)));
  }

  /** Every reply decodes to the address and port it was made from; any port, also one that the
      configured offset pushed below 0 or above 65535. */
  lemma PsvRoundTrip(q: Quad, port: int)
    ensures PsvReply(q.Dotted(), port).Some?
    ensures ParsePsvCommand(PsvReply(q.Dotted(), port).value) == Some((q.Dotted(), port))
  {
    ReplyFields(q, port);
    PortTexts(port);
    EndpointOf(PsvReply(q.Dotted(), port).value, Dec(q.a), Dec(q.b), Dec(q.c), Dec(q.d),
               DecInt(TruncDiv(port, 256)), DecInt(TruncMod(port, 256)), port);
  }

  lemma EndpointOf(text: string, a: string, b: string, c: string, d: string, p1: string, p2: string, port: int)
    requires PsvFields(text) == Some([a, b, c, d, p1, p2])
    requires Atoi(p1) * 256 + Atoi(p2) == port
    ensures ParsePsvCommand(text) == Some((Dots(a, b, c, d), port))
  {
  }

  lemma FieldsToDots(a: string, b: string, c: string, d: string, rest: string)
    requires ',' !in a && ',' !in b && ',' !in c && ',' !in d
    ensures ReplaceTimes(Fields(a, b, c, d) + "," + rest, ',', '.', 3) == Some(Dots(a, b, c, d) + "," + rest)
  {
    var r3 := d + "," + rest;
    var r2 := c + "," + r3;
    var r1 := b + "," + r2;
    assert Fields(a, b, c, d) + "," + rest == a + [','] + r1;
    ReplaceAgain(a, ',', r1, '.', 2);
    assert a + ['.'] + r1 == (a + "." + b) + [','] + r2;
    ReplaceAgain(a + "." + b, ',', r2, '.', 1);
    assert (a + "." + b) + ['.'] + r2 == (a + "." + b + "." + c) + [','] + r3;
    ReplaceAgain(a + "." + b + "." + c, ',', r3, '.', 0);
    assert (a + "." + b + "." + c) + ['.'] + r3 == Dots(a, b, c, d) + "," + rest;
  }

  lemma DotsLack(a: string, b: string, c: string, d: string, x: char)
    requires x !in a && x !in b && x !in c && x !in d && x != '.'
    ensures x !in Dots(a, b, c, d)
  {
  }

  lemma DecodePort(a: string, b: string, c: string, d: string, p1: string, p2: string)
    requires AllFree([a, b, c, d, p1], ',') && ',' !in p2
    ensures PortCommandFields("PORT " + (Fields(a, b, c, d) + "," + (p1 + "," + p2)))
         == if p1 == "" || p2 == "" then None else Some([Dots(a, b, c, d), p1, p2])
  {
    var ts := [a, b, c, d, p1];
    assert a in ts && b in ts && c in ts && d in ts && p1 in ts;
    FieldsToDots(a, b, c, d, p1 + "," + p2);
    DotsLack(a, b, c, d, ',');
    var f := [Dots(a, b, c, d), p1, p2];
    assert Join(f, ',') == Dots(a, b, c, d) + "," + (p1 + "," + p2) by {
      assert f[1..] == [p1, p2] && [p1, p2][1..] == [p2];
      assert Join([p2], ',') == p2;
      assert Join([p1, p2], ',') == p1 + "," + p2;
    }
    CutFieldsOfJoin(f);
    DecodeArguments(Fields(a, b, c, d) + "," + (p1 + "," + p2), Join(f, ','), f);
  }

  lemma DecodeArguments(args: string, dotted: string, f: seq<string>)
    requires ReplaceTimes(args, ',', '.', 3) == Some(dotted)
    requires CutFields(dotted, 2) == Some(f)
    ensures PortCommandFields("PORT " + args) == if f[1] == "" || f[2] == "" then None else Some(f)
  {
    var text := "PORT " + args;
    IndexOfAppend("PORT", ' ', args);
    assert text == "PORT" + [' '] + args;
    assert text[5..] == args;
  }

  lemma PortDecoded(args: string, f: seq<string>, port: int)
    requires PortCommandFields(args) == Some(f) && |f| == 3
    requires 256 * Atoi(f[1]) + Atoi(f[2]) == port
    ensures ParsePortCommand(args) == Some((f[0], port))
  {
  }

  lemma PortNumbers(port: nat)
    ensures ',' !in Dec(port / 256) && ',' !in Dec(port % 256) + "\r\n"
    ensures 256 * Atoi(Dec(port / 256)) + Atoi(Dec(port % 256) + "\r\n") == port
    ensures Dec(port / 256) != "" && Dec(port % 256) + "\r\n" != ""
  {
    AtoiOfDec(port / 256, "");
    assert Dec(port / 256) + "" == Dec(port / 256);
    AtoiOfDec(port % 256, "\r\n");
    DecLacks(port / 256, ',');
    DecLacks(port % 256, ',');
    DecDigits(port / 256);
  }

  lemma FiveFree(a: string, b: string, c: string, d: string, p: string, x: char)
    requires x !in a && x !in b && x !in c && x !in d && x !in p
    ensures AllFree([a, b, c, d, p], x)
  {
  }

  /** A PORT command for an address and port decodes to them. */
  lemma PortRoundTrip(q: Quad, port: nat)
    ensures ParsePortCommand("PORT " + (q.Commas() + "," + (Dec(port / 256) + "," + (Dec(port % 256) + "\r\n"))))
         == Some((q.Dotted(), port))
  {
    var (p1, p2) := (Dec(port / 256), Dec(port % 256) + "\r\n");
    OctetsLack(q, ',');
    PortNumbers(port);
    FiveFree(Dec(q.a), Dec(q.b), Dec(q.c), Dec(q.d), p1, ',');
    DecodePort(Dec(q.a), Dec(q.b), Dec(q.c), Dec(q.d), p1, p2);
    PortDecoded("PORT " + (q.Commas() + "," + (p1 + "," + p2)), [q.Dotted(), p1, p2], port);
  }

  /** Whatever the six texts are, they are decoded if and only if neither text of the port is empty. */
  lemma SixTextsDecoded(prefix: string, a: string, b: string, c: string, d: string, p1: string, p2: string)
    requires AllFree([a, b, c, d, p1, p2], ',') && AllFree([a, b, c, d, p1, p2], ')')
    requires '(' !in prefix && ')' !in prefix
    ensures var endpoint := (a + "." + b + "." + c + "." + d, Atoi(p1) * 256 + Atoi(p2));
      ParsePsvCommand(prefix + "(" + (Fields(a, b, c, d) + "," + (p1 + "," + p2) + ")\r\n"))
        == if p1 == "" || p2 == "" then None else Some(endpoint)
  {
    DecodeReply(prefix, a, b, c, d, p1, p2);
    FieldsDecoded(prefix + "(" + (Fields(a, b, c, d) + "," + (p1 + "," + p2) + ")\r\n"), a, b, c, d, p1, p2);
  }

  lemma FieldsDecoded(text: string, a: string, b: string, c: string, d: string, p1: string, p2: string)
    requires PsvFields(text) == if p1 == "" || p2 == "" then None else Some([a, b, c, d, p1, p2])
    ensures ParsePsvCommand(text)
         == if p1 == "" || p2 == "" then None else Some((a + "." + b + "." + c + "." + d, Atoi(p1) * 256 + Atoi(p2)))
  {
  }

  /** Of a PORT command likewise. */
  lemma PortTextsDecoded(a: string, b: string, c: string, d: string, p1: string, p2: string)
    requires AllFree([a, b, c, d, p1], ',') && ',' !in p2
    ensures var endpoint := (a + "." + b + "." + c + "." + d, Atoi(p1) * 256 + Atoi(p2));
      ParsePortCommand("PORT " + (Fields(a, b, c, d) + "," + (p1 + "," + p2))) == if p1 == "" || p2 == "" then None else Some(endpoint)
  {
    DecodePort(a, b, c, d, p1, p2);
  }

  // The check in Write

  /** `_site_ip`: what `Write` refuses to send to a client. */
  function SiteMark(site: Quad): string {
    "(" + Replaced(site.Dotted(), '.', ",")
  }

  lemma FieldPrefix(x: string, r: string, y: string, t: string)
    requires ',' !in x && ',' !in y
    ensures x + "," + r <= y + "," + t <==> x == y && r <= t
  {
    var (s, u) := (x + "," + r, y + "," + t);
    assert s[|x|] == ',' && u[|y|] == ',';
    assert forall j | 0 <= j < |x| :: s[j] == x[j];
    assert forall j | 0 <= j < |y| :: u[j] == y[j];
    if s <= u {
      assert |x| == |y|;
      assert x == s[..|x|] == u[..|x|] == y;
      assert r == s[|x| + 1..] == u[|x| + 1..|s|] == t[..|r|];
    }
    if x == y && r <= t {
      assert u == s + t[|r|..];
    }
  }

  lemma LastFieldPrefix(x: string, y: string, t: string)
    requires ',' !in x
    ensures x <= y + "," + t <==> x <= y
  {
    var u := y + "," + t;
    assert u[|y|] == ',';
    if x <= u {
      assert forall j | 0 <= j < |x| :: u[j] == x[j];
      assert |x| <= |y|;
      assert x == u[..|x|] == y[..|x|];
    }
    if x <= y {
      assert u == x + (y[|x|..] + "," + t);
    }
  }

  lemma DecInjective(m: nat, n: nat)
    ensures Dec(m) == Dec(n) <==> m == n
  {
    AtoiOfDec(m, "");
    AtoiOfDec(n, "");
    assert Dec(m) + "" == Dec(m) && Dec(n) + "" == Dec(n);
  }

  lemma MarkOccursOnlyAfter(prefix: string, rest: string, mark: string)
    requires '(' !in prefix && '(' !in rest
    ensures Contains(prefix + "(" + rest, "(" + mark) <==> mark <= rest
  {
    var text := prefix + "(" + rest;
    if Contains(text, "(" + mark) {
      var i: nat :| OccursAt(text, "(" + mark, i);
      var occurrence := text[i..i + |mark| + 1];
      assert occurrence[0] == '(' == text[i];
      assert i == |prefix|;
      assert mark == occurrence[1..] == text[i + 1..i + 1 + |mark|] == rest[..|mark|];
    }
    if mark <= rest {
      assert text == prefix + "(" + mark + rest[|mark|..];
      assert OccursAt(text, "(" + mark, |prefix|);
    }
  }

  lemma FieldsPrefix(sa: string, sb: string, sc: string, sd: string, a: string, b: string, c: string, d: string, rest: string)
    requires ',' !in sa && ',' !in sb && ',' !in sc && ',' !in sd
    requires ',' !in a && ',' !in b && ',' !in c
    ensures Fields(sa, sb, sc, sd) <= Fields(a, b, c, d) + "," + rest
       <==> sa == a && sb == b && sc == c && sd <= d
  {
    assert Fields(sa, sb, sc, sd) == sa + "," + (sb + "," + (sc + "," + sd));
    assert Fields(a, b, c, d) + "," + rest == a + "," + (b + "," + (c + "," + (d + "," + rest)));
    FieldPrefix(sa, sb + "," + (sc + "," + sd), a, b + "," + (c + "," + (d + "," + rest)));
    FieldPrefix(sb, sc + "," + sd, b, c + "," + (d + "," + rest));
    FieldPrefix(sc, sd, c, d + "," + rest);
    LastFieldPrefix(sd, d, rest);
  }

  /** `Write` drops a 227 reply exactly when the first three octets are the site's and the site's
      last octet, in decimal, is a prefix of the advertised one: a bouncer at 10.0.0.12 cannot
      answer PASV for a site at 10.0.0.1. */
  lemma GuardExact(site: Quad, adv: Quad, port: int)
    ensures PsvReply(adv.Dotted(), port).Some?
    ensures Contains(PsvReply(adv.Dotted(), port).value, SiteMark(site))
       <==> site.a == adv.a && site.b == adv.b && site.c == adv.c && Dec(site.d) <= Dec(adv.d)
  {
    ReplyShape(adv, port);
    QuadReplaced(site);
    var rest := Body(adv, port) + ")\r\n";
    BodyLacks(adv, port, '(');
    PrefixClean();
    MarkOccursOnlyAfter(PREFIX, rest, site.Commas());
    var ports := PortFields(port) + ")\r\n";
    assert rest == adv.Commas() + "," + ports;
    CommasPrefix(site, adv, ports);
  }

  lemma CommasPrefix(site: Quad, adv: Quad, rest: string)
    ensures site.Commas() <= adv.Commas() + "," + rest
       <==> site.a == adv.a && site.b == adv.b && site.c == adv.c && Dec(site.d) <= Dec(adv.d)
  {
    OctetsLack(site, ',');
    OctetsLack(adv, ',');
    FieldsPrefix(Dec(site.a), Dec(site.b), Dec(site.c), Dec(site.d),
                 Dec(adv.a), Dec(adv.b), Dec(adv.c), Dec(adv.d), rest);
    DecInjective(site.a, adv.a);
    DecInjective(site.b, adv.b);
    DecInjective(site.c, adv.c);
  }
}
