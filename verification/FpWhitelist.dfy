/** The certificate fingerprint list of src/fpwhitelist.cc. */
module FpWhitelists {
  import opened Strings
  import opened StringLists
  import opened ListFiles

  datatype FpEntry = FpEntry(fp: string, comment: string, user: string, iplist: seq<string>)

  function Fps(l: seq<FpEntry>): (r: seq<string>)
    ensures |r| == |l|
  {
    seq(|l|, i requires 0 <= i < |l| => l[i].fp)
  }

  predicate Known(l: seq<FpEntry>, fp: string) {
    exists e | e in l :: e.fp == fp
  }

  /** The first entry for a fingerprint, or `|l|`. */
  function Position(l: seq<FpEntry>, fp: string): (i: nat)
    ensures i <= |l|
  {
    if l == [] || l[0].fp == fp then 0 else 1 + Position(l[1..], fp)
  }

  lemma {:induction false} PositionIsFirst(l: seq<FpEntry>, fp: string)
    ensures var i := Position(l, fp);
      && (i < |l| ==> l[i].fp == fp)
      && (i < |l| <==> Known(l, fp))
      && !Known(l[..i], fp)
  {
    if l != [] && l[0].fp != fp {
      PositionIsFirst(l[1..], fp);
      var i := Position(l[1..], fp);
      assert l[..1 + i] == [l[0]] + l[1..][..i];
      assert forall e :: e in l <==> e == l[0] || e in l[1..];
    }
  }

  lemma PositionUnique(l: seq<FpEntry>, fp: string, k: nat)
    requires k <= |l| && !Known(l[..k], fp)
    requires k < |l| ==> l[k].fp == fp
    ensures Position(l, fp) == k
  {
    PositionIsFirst(l, fp);
    var i := Position(l, fp);
    assert forall j | 0 <= j < k :: l[j] in l[..k];
    assert forall j | 0 <= j < i :: l[j] in l[..i];
  }

  // CheckIp

  /** The list after `CheckIp` and its result: 1 for a new address of a known fingerprint, 0 for
      one that it has already, -1 for an unknown fingerprint. */
  function CheckedIp(h: Hashing, l: seq<FpEntry>, fp: string, ip: string): (seq<FpEntry>, int) {
    var i := Position(l, fp);
    if i == |l| then (l, -1)
    else if h.Key(ip) in l[i].iplist then (l, 0)
    else (l[i := l[i].(iplist := l[i].iplist + [h.Key(ip)])], 1)
  }

  /** `CheckIp` never changes which fingerprints are listed. */
  lemma CheckIpKeepsFingerprints(h: Hashing, l: seq<FpEntry>, fp: string, ip: string)
    ensures Fps(CheckedIp(h, l, fp, ip).0) == Fps(l)
    ensures forall g :: Known(CheckedIp(h, l, fp, ip).0, g) <==> Known(l, g)
  {
    var l' := CheckedIp(h, l, fp, ip).0;
    assert Fps(l') == Fps(l);
    SameFpsSameKnown(l', l);
    SameFpsSameKnown(l, l');
  }

  lemma SameFpsSameKnown(l: seq<FpEntry>, m: seq<FpEntry>)
    requires Fps(l) == Fps(m)
    ensures forall g | Known(l, g) :: Known(m, g)
  {
    forall g | Known(l, g) ensures Known(m, g) {
      var i :| 0 <= i < |l| && l[i].fp == g;
      assert Fps(l)[i] == Fps(m)[i];
      assert m[i] in m;
    }
  }

  /** A second check of the same address changes nothing more. */
  lemma CheckIpTwice(h: Hashing, l: seq<FpEntry>, fp: string, ip: string)
    ensures var l' := CheckedIp(h, l, fp, ip).0;
      CheckedIp(h, l', fp, ip) == (l', if Known(l, fp) then 0 else -1)
  {
    var i := Position(l, fp);
    PositionIsFirst(l, fp);
    var l' := CheckedIp(h, l, fp, ip).0;
    assert l'[..i] == l[..i];
    PositionUnique(l', fp, i);
  }

  // Lines

  function Line(e: FpEntry): string {
    e.fp + "," + e.comment + "," + e.user + "," + Join(e.iplist, ',')
  }

  function Lines(l: seq<FpEntry>): seq<string> {
    seq(|l|, i requires 0 <= i < |l| => Line(l[i]))
  }

  /** The loop of `Insert` over the address part: the addresses pushed so far and the text of
      the current one. An address is pushed only when a comma follows it. */
  function IpScan(s: string): (seq<string>, string) {
    if s == "" then ([], "")
    else
      var (ips, tmp) := IpScan(s[..|s| - 1]);
      var c := s[|s| - 1];
      if c == ',' then (if tmp != "" then (ips + [tmp], "") else (ips, tmp))
      else if c != '\r' && c != '\n' then (ips, tmp + [c])
      else (ips, tmp)
  }

  /** `user,ip1,ip2..` */
  function ParseUser(s: string): (string, seq<string>) {
    var r := IndexOf(s, ',');
    (s[..r], if r == |s| then [] else IpScan(s[r + 1..]).0)
  }

  /** `comment,user,ip1,ip2..` */
  function ParseComment(s: string): Option<(string, string, seq<string>)> {
    var q := IndexOf(s, ',');
    if q == |s| then None
    else
      var (user, ips) := ParseUser(s[q + 1..]);
      Some((s[..q], user, ips))
  }

  /** `fp,comment,user,ip1,ip2..`; the fingerprint is stored in upper case. */
  function Parse(s: string): Option<FpEntry> {
    var p := IndexOf(s, ',');
    if p == |s| then None
    else
      match ParseComment(s[p + 1..])
      case None => None
      case Some((comment, user, ips)) => Some(FpEntry(Upper(s[..p]), comment, user, ips))
  }

  /** The list after `Insert` and its result code; known fingerprints are looked up as typed. */
  function Inserting(l: seq<FpEntry>, s: string): (seq<FpEntry>, int) {
    var p := IndexOf(s, ',');
    if p == |s| then (l, 0)
    else if Known(l, s[..p]) then (l, 2)
    else
      match Parse(s)
      case None => (l, 0)
      case Some(e) => (l + [e], 1)
  }

  function LoadAll(l: seq<FpEntry>, lines: seq<string>): seq<FpEntry> {
    if lines == [] then l
    else Inserting(LoadAll(l, lines[..|lines| - 1]), lines[|lines| - 1]).0
  }

  function Dropping(l: seq<FpEntry>, fp: string): seq<FpEntry> {
    var i := Position(l, fp);
    if i == |l| then l else l[..i] + l[i + 1..]
  }

  class FpWhitelist {
    var hashing: Hashing
    const crypted_fpwhitelist: bool
    const fpwhitelist_file: string
    const fpwl_bk: string
    const disk: Disk
    var List: seq<FpEntry>

    constructor (hashing: Hashing, crypted: bool, file: string, key: string, disk: Disk)
      ensures this.hashing == hashing && this.crypted_fpwhitelist == crypted
      ensures this.fpwhitelist_file == file && this.fpwl_bk == key && this.disk == disk
      ensures List == []
    {
      this.hashing := hashing;
      this.crypted_fpwhitelist := crypted;
      this.fpwhitelist_file := file;
      this.fpwl_bk := key;
      this.disk := disk;
      List := [];
    }

    /** The file once the present list has been written to it. */
    ghost function Saved(files: map<string, string>, writable: bool): map<string, string>
      reads this
    {
      if writable then files[fpwhitelist_file := disk.cipher.Stored(fpwl_bk, Text(Lines(List)))] else files
    }

    method IsInList(s: string) returns (r: bool)
      ensures r <==> Known(List, s)
    {
      for i := 0 to |List|
        invariant forall j | 0 <= j < i :: List[j].fp != s
      {
        if List[i].fp == s {
          return true;
        }
      }
      return false;
    }

    method CheckIp(fp: string, ip: string, writable: bool) returns (code: int, msg: string)
      modifies `List, disk
      ensures (List, code) == CheckedIp(hashing, old(List), fp, ip)
      ensures code == 1 ==> disk.files == Saved(old(disk.files), writable)
      ensures code != 1 ==> disk.files == old(disk.files)
      ensures msg == if code == 1
        then " new ip: " + old(List)[Position(old(List), fp)].comment + " [" + fp + "] - " + ip
        else ""
    {
      msg := "";
      var tmp := ip;
      if hashing.enabled {
        tmp := hashing.digest(ip);
      }
      for i := 0 to |List|
        invariant List == old(List) && disk.files == old(disk.files)
        invariant !Known(List[..i], fp)
      {
        assert List[..i + 1] == List[..i] + [List[i]];
        if List[i].fp == fp {
          PositionUnique(List, fp, i);
          for k := 0 to |List[i].iplist|
            invariant List == old(List) && disk.files == old(disk.files)
            invariant tmp !in List[i].iplist[..k]
          {
            if List[i].iplist[k] == tmp {
              return 0, "";
            }
          }
          assert List[i].iplist[..|List[i].iplist|] == List[i].iplist;
          List := List[i := List[i].(iplist := List[i].iplist + [tmp])];
          msg := " new ip: " + List[i].comment + " [" + fp + "] - " + ip;
          var ok := WriteList(fpwhitelist_file, fpwl_bk, writable);
          return 1, msg;
        }
      }
      assert List[..|List|] == List;
      PositionUnique(List, fp, |List|);
      return -1, "";
    }

    method Insert(s: string) returns (code: int)
      modifies `List
      ensures (List, code) == Inserting(old(List), s)
    {
      if s == "" {
        return 0;
      }
      var pos := IndexOf(s, ',');
      if pos != |s| {
        var known := IsInList(s[..pos]);
        if known {
          return 2;
        }
        var rest := ReadComment(s[pos + 1..]);
        if rest.Some? {
          var (comment, user, iplist) := rest.value;
          var entry := FpEntry(Upper(s[..pos]), comment, user, iplist);
          assert Parse(s) == Some(entry);
          List := List + [entry];
          return 1;
        } else {
          return 0;
        }
      } else {
        return 0;
      }
    }

    /** The rest of a line behind the fingerprint. */
    method ReadComment(s: string) returns (r: Option<(string, string, seq<string>)>)
      ensures r == ParseComment(s)
    {
      var pos := IndexOf(s, ',');
      if pos == |s| {
        return None;
      }
      var user, iplist := ReadUser(s[pos + 1..]);
      return Some((s[..pos], user, iplist));
    }

    /** And behind the comment. */
    method ReadUser(s: string) returns (user: string, iplist: seq<string>)
      ensures (user, iplist) == ParseUser(s)
    {
      var pos := IndexOf(s, ',');
      user, iplist := s, [];
      assert s[..|s|] == s;
      if pos != |s| {
        user := s[..pos];
        var rest := s[pos + 1..];
        if rest != "" {
          iplist := AddIps(rest);
        }
      }
    }

    /** The inner loop of `Insert`. */
    method AddIps(s: string) returns (iplist: seq<string>)
      ensures iplist == IpScan(s).0
    {
      iplist := [];
      var tmp := "";
      for i := 0 to |s|
        invariant (iplist, tmp) == IpScan(s[..i])
      {
        assert s[..i + 1][..i] == s[..i];
        if s[i] != ',' && s[i] != '\r' && s[i] != '\n' {
          tmp := tmp + [s[i]];
        }
        if s[i] == ',' {
          if tmp != "" {
            iplist := iplist + [tmp];
            tmp := "";
          }
        }
      }
      assert s[..|s|] == s;
    }

    method Remove(s: string)
      modifies `List
      ensures List == Dropping(old(List), s)
    {
      var it := 0;
      while it < |List|
        invariant 0 <= it <= |List| && List == old(List)
        invariant !Known(List[..it], s)
      {
        if List[it].fp == s {
          PositionUnique(List, s, it);
          List := List[..it] + List[it + 1..];
          return;
        }
        assert List[..it + 1] == List[..it] + [List[it]];
        it := it + 1;
      }
      assert List[..|List|] == List;
      PositionUnique(List, s, |List|);
    }

    /** The inner loop of `WriteList`: no comma follows the last address. */
    method JoinIps(iplist: seq<string>) returns (daten: string)
      ensures daten == Join(iplist, ',')
    {
      daten := "";
      for k := 0 to |iplist|
        invariant daten == Join(iplist[..k], ',') + (if 0 < k < |iplist| then "," else "")
      {
        assert iplist[..k + 1] == iplist[..k] + [iplist[k]];
        JoinSnoc(iplist[..k], iplist[k], ',');
        if k == |iplist| - 1 {
          daten := daten + iplist[k];
        } else {
          daten := daten + (iplist[k] + ",");
        }
      }
      assert iplist[..|iplist|] == iplist;
    }

    method WriteList(filename: string, key: string, writable: bool) returns (ok: bool)
      modifies disk
      ensures ok == writable
      ensures disk.files == if writable then old(disk.files)[filename := disk.cipher.Stored(key, Text(Lines(List)))]
                            else old(disk.files)
    {
      var daten := "";
      for i := 0 to |List|
        invariant daten == Text(Lines(List[..i])) && disk.files == old(disk.files)
      {
        ghost var before := daten;
        daten := daten + (List[i].fp + "," + List[i].comment + "," + List[i].user + ",");
        var ips := JoinIps(List[i].iplist);
        daten := daten + ips;
        daten := daten + "\r\n";
        LinesSnoc(List, i);
        assert daten == before + Line(List[i]) + "\r\n";
      }
      assert List[..|List|] == List;
      var out := daten;
      if key != "" {
        out := disk.cipher.encrypt(key, daten);
      }
      ok := disk.WriteFile(filename, out, writable);
    }

    /** The text is read through a C string, so it must not hold a NUL. */
    method ReadList(filename: string, key: string) returns (ok: bool)
      requires filename in disk.files ==>
        '\0' !in disk.cipher.Loaded(key, crypted_fpwhitelist, disk.files[filename])
      modifies `List
      ensures ok <==> filename in disk.files
      ensures !ok ==> List == old(List)
      ensures ok ==> List == LoadAll(old(List),
        Scan(disk.cipher.Loaded(key, crypted_fpwhitelist, disk.files[filename])).0)
    {
      if filename !in disk.files {
        return false;
      }
      var daten := disk.files[filename];
      if crypted_fpwhitelist {
        daten := disk.cipher.decrypt(key, daten);
      }
      var tmp := "";
      for i := 0 to |daten|
        invariant tmp == Scan(daten[..i]).1
        invariant List == LoadAll(old(List), Scan(daten[..i]).0)
      {
        assert daten[..i + 1][..i] == daten[..i];
        if daten[i] != '\r' && daten[i] != '\n' {
          tmp := tmp + [daten[i]];
        }
        if daten[i] == '\n' {
          ghost var lines := Scan(daten[..i]).0;
          assert (lines + [tmp])[..|lines|] == lines;
          var code := Insert(tmp);
          tmp := "";
        }
      }
      assert daten[..|daten|] == daten;
      return true;
    }
  }

  lemma LinesSnoc(l: seq<FpEntry>, i: nat)
    requires i < |l|
    ensures Text(Lines(l[..i + 1])) == Text(Lines(l[..i])) + Line(l[i]) + "\r\n"
  {
    var all := Lines(l[..i + 1]);
    assert all[..i] == Lines(l[..i]);
    assert all[i] == Line(l[i]);
  }

  // Which histories keep the fingerprints distinct

  /** `Insert` looks a fingerprint up as typed but stores it in upper case. It keeps distinct
      fingerprints distinct exactly when the line has no two commas, is refused as known, or its
      stored form is new. */
  lemma InsertDistinctExactly(l: seq<FpEntry>, s: string)
    requires Distinct(Fps(l))
    ensures var typed := s[..IndexOf(s, ',')];
      Distinct(Fps(Inserting(l, s).0)) <==> Parse(s).None? || Known(l, typed) || !Known(l, Upper(typed))
  {
    if Inserting(l, s).1 == 1 {
      var e := Parse(s).value;
      assert Fps(l + [e]) == Fps(l) + [e.fp];
      if Known(l, e.fp) {
        var i :| 0 <= i < |l| && l[i].fp == e.fp;
        assert Fps(l + [e])[i] == Fps(l + [e])[|l|];
      } else {
        forall i | 0 <= i < |l| ensures Fps(l)[i] != e.fp {
          assert l[i] in l;
        }
      }
    }
  }

  lemma ParseFields(fp: string, comment: string, user: string, rest: string)
    requires ',' !in fp && ',' !in comment && ',' !in user
    ensures var s := fp + [','] + (comment + [','] + (user + [','] + rest));
      && IndexOf(s, ',') == |fp| < |s| && s[..|fp|] == fp
      && Parse(s) == Some(FpEntry(Upper(fp), comment, user, IpScan(rest).0))
  {
    var s2 := user + [','] + rest;
    var s1 := comment + [','] + s2;
    IndexOfAppend(fp, ',', s1);
    IndexOfAppend(comment, ',', s2);
    IndexOfAppend(user, ',', rest);
  }

  lemma ParseUserPlain(user: string)
    requires ',' !in user
    ensures ParseUser(user) == (user, [])
  {
    IndexOfAbsent(user, ',');
    assert user[..|user|] == user;
  }

  lemma ParseCommentPlain(comment: string, user: string)
    requires ',' !in comment && ',' !in user
    ensures ParseComment(comment + [','] + user) == Some((comment, user, []))
  {
    IndexOfAppend(comment, ',', user);
    ParseUserPlain(user);
  }

  /** A line without addresses. */
  lemma ParseThree(fp: string, comment: string, user: string)
    requires ',' !in fp && ',' !in comment && ',' !in user
    ensures var s := fp + "," + comment + "," + user;
      IndexOf(s, ',') == |fp| < |s| && s[..|fp|] == fp && Parse(s) == Some(FpEntry(Upper(fp), comment, user, []))
  {
    var s := fp + "," + comment + "," + user;
    var s1 := comment + [','] + user;
    assert s == fp + [','] + s1;
    IndexOfAppend(fp, ',', s1);
    ParseCommentPlain(comment, user);
  }

  lemma InsertTyped(l: seq<FpEntry>, fp: string, comment: string, user: string)
    requires ',' !in fp && ',' !in comment && ',' !in user
    ensures Inserting(l, fp + "," + comment + "," + user).0
         == l + if exists e | e in l :: e.fp == fp then [] else [FpEntry(Upper(fp), comment, user, [])]
  {
    ParseThree(fp, comment, user);
    assert l + [] == l;
  }

  /** The result codes. */
  lemma InsertCodes(l: seq<FpEntry>, fp: string, rest: string)
    requires ',' !in fp
    ensures Inserting(l, fp + "," + rest).1 == if exists e | e in l :: e.fp == fp then 2 else if ',' in rest then 1 else 0
    ensures Inserting(l, fp) == (l, 0)
  {
    IndexOfAbsent(fp, ',');
    IndexOfAppend(fp, ',', rest);
    assert fp + "," + rest == fp + [','] + rest;
    IndexOfFirst(rest, ',');
  }

  /** Checking an address adds it, in its stored form, to the first entry of the fingerprint, unless that has it;
      nothing else is touched, and nothing at all for a fingerprint that is not listed. */
  lemma CheckedIpExactly(h: Hashing, l: seq<FpEntry>, i: nat, ip: string)
    requires i < |l| && !Known(l[..i], l[i].fp)
    ensures var (fp, key) := (l[i].fp, if h.enabled then h.digest(ip) else ip);
      CheckedIp(h, l, fp, ip)
        == if exists k | k in l[i].iplist :: k == key then (l, 0)
           else (l[..i] + [FpEntry(fp, l[i].comment, l[i].user, l[i].iplist + [key])] + l[i + 1..], 1)
  {
    PositionUnique(l, l[i].fp, i);
    var e := l[i].(iplist := l[i].iplist + [h.Key(ip)]);
    assert l[i := e] == l[..i] + [e] + l[i + 1..];
  }

  lemma CheckedIpUnknown(h: Hashing, l: seq<FpEntry>, fp: string, ip: string)
    requires forall e | e in l :: e.fp != fp
    ensures CheckedIp(h, l, fp, ip) == (l, -1)
  {
    PositionIsFirst(l, fp);
  }

  /** Removal takes the first entry of a fingerprint and leaves the others in place; so of distinct fingerprints
      it leaves exactly the others. */
  lemma RemoveFirst(l: seq<FpEntry>, fp: string, i: nat)
    requires i < |l| && l[i].fp == fp && !Known(l[..i], fp)
    ensures Dropping(l, fp) == l[..i] + l[i + 1..]
  {
    PositionUnique(l, fp, i);
  }

  lemma RemoveDistinct(l: seq<FpEntry>, fp: string)
    requires Distinct(Fps(l))
    ensures forall e :: e in Dropping(l, fp) <==> e in l && e.fp != fp
    ensures !Known(l, fp) ==> Dropping(l, fp) == l
  {
    PositionIsFirst(l, fp);
    var i := Position(l, fp);
    if i < |l| {
      RemoveFirst(l, fp, i);
      assert l == l[..i] + [l[i]] + l[i + 1..];
      forall e | e in l[i + 1..] ensures e.fp != fp {
        var j :| i < j < |l| && l[j] == e;
        assert Fps(l)[i] != Fps(l)[j];
      }
    }
  }

  /** A line with a new fingerprint that is not in upper case can be inserted twice, and is then
      stored twice. */
  lemma LowerCaseTwice(l: seq<FpEntry>, fp: string, comment: string, user: string)
    requires ',' !in fp && ',' !in comment && ',' !in user
    requires Upper(fp) != fp && !Known(l, fp)
    ensures var s := fp + [','] + (comment + [','] + (user + [','] + ""));
      var once := Inserting(l, s).0;
      Inserting(once, s).1 == 1 && !Distinct(Fps(Inserting(once, s).0))
  {
    ParseFields(fp, comment, user, "");
    var e := FpEntry(Upper(fp), comment, user, []);
    var twice := (l + [e]) + [e];
    assert Fps(twice)[|l|] == Fps(twice)[|l| + 1];
    assert !Known(l + [e], fp);
  }

  // Writing and reading back

  /** An entry as the reader stores them, whose fields can be told apart in the file. */
  predicate Clean(e: FpEntry) {
    && Upper(e.fp) == e.fp && ',' !in e.fp && OneLine(e.fp)
    && ',' !in e.comment && OneLine(e.comment)
    && ',' !in e.user && OneLine(e.user)
    && forall ip | ip in e.iplist :: ip != "" && ',' !in ip && OneLine(ip)
  }

  predicate AllClean(l: seq<FpEntry>) {
    forall e | e in l :: Clean(e)
  }

  function DropLast(ips: seq<string>): seq<string> {
    if ips == [] then [] else ips[..|ips| - 1]
  }

  /** What one write and read does to an entry. */
  function Reread(e: FpEntry): FpEntry {
    e.(iplist := DropLast(e.iplist))
  }

  function RereadAll(l: seq<FpEntry>): seq<FpEntry> {
    seq(|l|, i requires 0 <= i < |l| => Reread(l[i]))
  }

  lemma {:induction false} IpScanPlain(a: string, x: string)
    requires ',' !in x && OneLine(x)
    ensures IpScan(a + x) == (IpScan(a).0, IpScan(a).1 + x)
  {
    if x == "" {
      assert a + x == a && IpScan(a).1 + x == IpScan(a).1;
    } else {
      var last := |x| - 1;
      assert (a + x)[..|a + x| - 1] == a + x[..last];
      assert forall c | c in x[..last] :: c in x;
      IpScanPlain(a, x[..last]);
      assert x[last] in x;
      var t := IpScan(a).1;
      assert (t + x[..last]) + [x[last]] == t + x;
    }
  }

  /** CR and LF are no part of an address, wherever they stand. */
  lemma IpScanSkips(s: string, c: char)
    requires c == '\r' || c == '\n'
    ensures IpScan(s + [c]) == IpScan(s)
  {
    assert (s + [c])[..|s|] == s;
  }

  lemma IpScanField(a: string, ip: string)
    requires ip != "" && ',' !in ip && OneLine(ip)
    requires IpScan(a).1 == ""
    ensures IpScan(a + ip + ",") == (IpScan(a).0 + [ip], "")
  {
    IpScanPlain(a, ip);
    assert "" + ip == ip;
    var s := a + ip + ",";
    assert s[..|s| - 1] == a + ip;
  }

  /** The address part of a line gives back all addresses but the last. */
  lemma {:induction false} IpScanJoin(ips: seq<string>)
    requires forall ip | ip in ips :: ip != "" && ',' !in ip && OneLine(ip)
    ensures IpScan(Join(ips, ',')).0 == DropLast(ips)
    ensures ips != [] ==> IpScan(Join(ips, ',') + ",") == (ips, "")
  {
    if ips != [] {
      var init, last := ips[..|ips| - 1], ips[|ips| - 1];
      assert ips == init + [last];
      assert last in ips;
      assert forall ip | ip in init :: ip in ips;
      JoinSnoc(init, last, ',');
      IpScanJoin(init);
      var a := if init == [] then "" else Join(init, ',') + ",";
      assert Join(ips, ',') == a + last;
      IpScanPlain(a, last);
      IpScanField(a, last);
    }
  }

  lemma ParseLine(e: FpEntry)
    requires Clean(e)
    ensures IndexOf(Line(e), ',') < |Line(e)| && Line(e)[..IndexOf(Line(e), ',')] == e.fp
    ensures Parse(Line(e)) == Some(Reread(e))
  {
    var ips := Join(e.iplist, ',');
    LineAssoc(e.fp, e.comment, e.user, ips);
    ParseFields(e.fp, e.comment, e.user, ips);
    IpScanJoin(e.iplist);
  }

  lemma LineAssoc(fp: string, comment: string, user: string, ips: string)
    ensures fp + "," + comment + "," + user + "," + ips == fp + [','] + (comment + [','] + (user + [','] + ips))
  {
  }

  /** A line of a fingerprint that was not read yet. */
  lemma InsertLine(read: seq<FpEntry>, e: FpEntry)
    requires Clean(e) && !Known(read, e.fp)
    ensures Inserting(read, Line(e)).0 == read + [Reread(e)]
  {
    ParseLine(e);
  }

  lemma RereadPrefix(l: seq<FpEntry>, n: nat)
    requires Distinct(Fps(l)) && n < |l|
    ensures RereadAll(l)[..n + 1] == RereadAll(l)[..n] + [Reread(l[n])]
    ensures !Known(RereadAll(l)[..n], l[n].fp)
  {
    var read := RereadAll(l)[..n];
    forall f | f in read ensures f.fp != l[n].fp {
      var i :| 0 <= i < n && read[i] == f;
      assert Fps(l)[i] != Fps(l)[n];
    }
  }

  lemma {:induction false} LoadLines(l: seq<FpEntry>, n: nat)
    requires AllClean(l) && Distinct(Fps(l)) && n <= |l|
    ensures LoadAll([], Lines(l)[..n]) == RereadAll(l)[..n]
  {
    if n > 0 {
      LoadLines(l, n - 1);
      var lines := Lines(l)[..n];
      assert lines[..n - 1] == Lines(l)[..n - 1] && lines[n - 1] == Line(l[n - 1]);
      assert l[n - 1] in l;
      RereadPrefix(l, n - 1);
      InsertLine(RereadAll(l)[..n - 1], l[n - 1]);
    }
  }

  lemma LinesAreClean(l: seq<FpEntry>)
    requires AllClean(l)
    ensures forall x | x in Lines(l) :: OneLine(x)
  {
    forall x | x in Lines(l) ensures OneLine(x) {
      var i :| 0 <= i < |Lines(l)| && Lines(l)[i] == x;
      assert l[i] in l;
      var ips := l[i].iplist;
      JoinFree(ips, ',', '\r');
      JoinFree(ips, ',', '\n');
      JoinFree(ips, ',', '\0');
    }
  }

  /** Reading what was written keeps every fingerprint, comment, user and the order, and drops
      exactly the last address of each entry that has one. */
  lemma WriteThenRead(cipher: Cipher, key: string, crypted: bool, l: seq<FpEntry>)
    requires AllClean(l) && Distinct(Fps(l))
    requires crypted <==> key != ""
    requires crypted ==> cipher.Inverse(key)
    ensures var data := cipher.Loaded(key, crypted, cipher.Stored(key, Text(Lines(l))));
      '\0' !in data && LoadAll([], Scan(data).0) == RereadAll(l)
  {
    cipher.StoredLoaded(key, crypted, Text(Lines(l)));
    LinesAreClean(l);
    ScanText(Lines(l));
    TextHasNoNul(Lines(l));
    LoadLines(l, |l|);
    assert Lines(l)[..|l|] == Lines(l) && RereadAll(l)[..|l|] == RereadAll(l);
  }

  /** `k` restarts, each one a write followed by a read into an empty list. */
  function Restarts(l: seq<FpEntry>, k: nat): seq<FpEntry>
    decreases k
  {
    if k == 0 then l else Restarts(LoadAll([], Scan(Text(Lines(l))).0), k - 1)
  }

  function Keep(l: seq<FpEntry>, k: nat): seq<FpEntry> {
    seq(|l|, i requires 0 <= i < |l| =>
      l[i].(iplist := if k <= |l[i].iplist| then l[i].iplist[..|l[i].iplist| - k] else []))
  }

  lemma RereadClean(l: seq<FpEntry>)
    requires AllClean(l) && Distinct(Fps(l))
    ensures AllClean(RereadAll(l)) && Fps(RereadAll(l)) == Fps(l)
  {
    var l' := RereadAll(l);
    forall e | e in l' ensures Clean(e) {
      var i :| 0 <= i < |l| && l'[i] == e;
      assert l[i] in l;
      assert forall ip | ip in e.iplist :: ip in l[i].iplist;
    }
  }

  lemma KeepOneMore(l: seq<FpEntry>, k: nat)
    ensures Keep(RereadAll(l), k) == Keep(l, k + 1)
  {
    forall i | 0 <= i < |l| ensures Keep(RereadAll(l), k)[i] == Keep(l, k + 1)[i] {
      var ips := l[i].iplist;
      if |ips| >= k + 1 {
        assert DropLast(ips)[..|ips| - 1 - k] == ips[..|ips| - 1 - k];
      }
    }
  }

  lemma KeepAll(l: seq<FpEntry>)
    ensures Keep(l, 0) == l
  {
    forall i | 0 <= i < |l| ensures Keep(l, 0)[i] == l[i] {
      assert l[i].iplist[..|l[i].iplist|] == l[i].iplist;
    }
  }

  lemma RestartOnce(l: seq<FpEntry>, k: nat)
    requires AllClean(l) && Distinct(Fps(l)) && k > 0
    ensures Restarts(l, k) == Restarts(RereadAll(l), k - 1)
  {
    WriteThenRead(Cipher((k, t) => t, (k, t) => t), "", false, l);
  }

  /** After `k` restarts an entry with n addresses has its first max(0, n - k) left. */
  lemma {:induction false} RestartsForget(l: seq<FpEntry>, k: nat)
    requires AllClean(l) && Distinct(Fps(l))
    ensures Restarts(l, k) == Keep(l, k)
    decreases k
  {
    if k == 0 {
      KeepAll(l);
    } else {
      var l' := RereadAll(l);
      RestartOnce(l, k);
      RereadClean(l);
      RestartsForget(l', k - 1);
      KeepOneMore(l, k - 1);
    }
  }

  lemma CheckedIpAt(h: Hashing, l: seq<FpEntry>, i: nat, ip: string)
    requires Distinct(Fps(l)) && i < |l|
    ensures CheckedIp(h, l, l[i].fp, ip).1 == if h.Key(ip) in l[i].iplist then 0 else 1
  {
    PositionIs(l, i);
  }

  /** A listed address is announced as new again after a restart exactly when it is the last one of
      its fingerprint. */
  lemma RestartAnnouncesAgain(h: Hashing, l: seq<FpEntry>, i: nat, ip: string)
    requires AllClean(l) && Distinct(Fps(l))
    requires i < |l| && Distinct(l[i].iplist) && h.Key(ip) in l[i].iplist
    ensures CheckedIp(h, l, l[i].fp, ip).1 == 0
    ensures CheckedIp(h, Restarts(l, 1), l[i].fp, ip).1
         == if l[i].iplist[|l[i].iplist| - 1] == h.Key(ip) then 1 else 0
  {
    RestartsForget(l, 1);
    var (l', ips) := (Keep(l, 1), l[i].iplist);
    CheckedIpAt(h, l, i, ip);
    assert Fps(l') == Fps(l);
    CheckedIpAt(h, l', i, ip);
    assert l'[i].iplist == ips[..|ips| - 1];
    var k :| 0 <= k < |ips| && ips[k] == h.Key(ip);
    if k < |ips| - 1 {
      assert ips[..|ips| - 1][k] == h.Key(ip);
    }
  }

  lemma {:induction false} PositionIs(l: seq<FpEntry>, i: nat)
    requires Distinct(Fps(l)) && i < |l|
    ensures Position(l, l[i].fp) == i
  {
    if i > 0 {
      assert Fps(l)[0] != Fps(l)[i];
      assert Fps(l[1..]) == Fps(l)[1..];
      PositionIs(l[1..], i - 1);
    }
  }

  // Which lists can come up

  datatype Edit = Insertion(s: string) | Removal(fp: string) | Check(fp: string, ip: string)

  function Apply(h: Hashing, l: seq<FpEntry>, e: Edit): seq<FpEntry> {
    match e
    case Insertion(s) => Inserting(l, s).0
    case Removal(fp) => Dropping(l, fp)
    case Check(fp, ip) => CheckedIp(h, l, fp, ip).0
  }

  function History(h: Hashing, l: seq<FpEntry>, es: seq<Edit>): seq<FpEntry> {
    if es == [] then l else Apply(h, History(h, l, es[..|es| - 1]), es[|es| - 1])
  }

  predicate CleanAddress(ip: string) {
    ip != "" && ',' !in ip && OneLine(ip)
  }

  /** One line with the fingerprint in upper case; an address whose stored form can be read back. */
  predicate CleanEdit(h: Hashing, e: Edit) {
    match e
    case Insertion(s) => OneLine(s) && Upper(s[..IndexOf(s, ',')]) == s[..IndexOf(s, ',')]
    case Removal(_) => true
    case Check(_, ip) => CleanAddress(h.Key(ip))
  }

  /** Everything that `Insert` pushes is an address that can be read back. */
  lemma {:induction false} IpScanClean(s: string)
    requires OneLine(s)
    ensures forall ip | ip in IpScan(s).0 :: CleanAddress(ip)
    ensures ',' !in IpScan(s).1 && OneLine(IpScan(s).1)
  {
    if s != "" {
      assert forall c | c in s[..|s| - 1] :: c in s;
      assert s[|s| - 1] in s;
      IpScanClean(s[..|s| - 1]);
    }
  }

  /** The text up to a comma, and the text behind it. */
  lemma CutClean(s: string, i: nat)
    requires OneLine(s) && i == IndexOf(s, ',')
    ensures ',' !in s[..i] && OneLine(s[..i]) && (i < |s| ==> OneLine(s[i + 1..]))
  {
    IndexOfFirst(s, ',');
  }

  lemma UserClean(s: string)
    requires OneLine(s)
    ensures var (user, ips) := ParseUser(s);
      ',' !in user && OneLine(user) && forall ip | ip in ips :: CleanAddress(ip)
  {
    var r := IndexOf(s, ',');
    CutClean(s, r);
    if r < |s| {
      IpScanClean(s[r + 1..]);
    }
  }

  lemma CommentClean(s: string)
    requires OneLine(s) && ParseComment(s).Some?
    ensures var (comment, user, ips) := ParseComment(s).value;
      && ',' !in comment && OneLine(comment) && ',' !in user && OneLine(user)
      && forall ip | ip in ips :: CleanAddress(ip)
  {
    var q := IndexOf(s, ',');
    CutClean(s, q);
    UserClean(s[q + 1..]);
  }

  lemma ParseClean(s: string, p: nat)
    requires OneLine(s) && Parse(s).Some? && p == IndexOf(s, ',') && Upper(s[..p]) == s[..p]
    ensures Clean(Parse(s).value) && Parse(s).value.fp == s[..p]
  {
    CutClean(s, p);
    CommentClean(s[p + 1..]);
  }

  lemma InsertKeeps(l: seq<FpEntry>, s: string)
    requires AllClean(l) && Distinct(Fps(l)) && OneLine(s) && Upper(s[..IndexOf(s, ',')]) == s[..IndexOf(s, ',')]
    ensures var l' := Inserting(l, s).0; AllClean(l') && Distinct(Fps(l'))
  {
    InsertDistinctExactly(l, s);
    if Inserting(l, s).1 == 1 {
      ParseClean(s, IndexOf(s, ','));
    }
  }

  lemma RemoveKeeps(l: seq<FpEntry>, fp: string)
    requires AllClean(l) && Distinct(Fps(l))
    ensures AllClean(Dropping(l, fp)) && Distinct(Fps(Dropping(l, fp)))
  {
    var i := Position(l, fp);
    if i < |l| {
      CutKeeps(l, i);
    }
  }

  lemma CutKeeps(l: seq<FpEntry>, i: nat)
    requires i < |l| && AllClean(l) && Distinct(Fps(l))
    ensures AllClean(l[..i] + l[i + 1..]) && Distinct(Fps(l[..i] + l[i + 1..]))
  {
    assert Fps(l[..i] + l[i + 1..]) == Fps(l)[..i] + Fps(l)[i + 1..];
    DistinctCut(Fps(l), i);
  }

  lemma CheckKeeps(h: Hashing, l: seq<FpEntry>, fp: string, ip: string)
    requires AllClean(l) && Distinct(Fps(l)) && CleanAddress(h.Key(ip))
    ensures var l' := CheckedIp(h, l, fp, ip).0; AllClean(l') && Distinct(Fps(l'))
  {
    CheckIpKeepsFingerprints(h, l, fp, ip);
    var i := Position(l, fp);
    if i < |l| {
      assert l[i] in l;
    }
  }

  /** From an empty list, insertions of upper-case one-line entries, removals and address checks lead
      only to lists that `WriteThenRead` and `RestartsForget` speak of. */
  lemma {:induction false} HistoryKeeps(h: Hashing, es: seq<Edit>)
    requires forall e | e in es :: CleanEdit(h, e)
    ensures AllClean(History(h, [], es)) && Distinct(Fps(History(h, [], es)))
  {
    if es != [] {
      var init, last := es[..|es| - 1], es[|es| - 1];
      HistoryKeeps(h, init);
      assert last in es;
      var l := History(h, [], init);
      match last {
        case Insertion(s) => InsertKeeps(l, s);
        case Removal(fp) => RemoveKeeps(l, fp);
        case Check(fp, ip) => CheckKeeps(h, l, fp, ip);
      }
    }
  }
}
