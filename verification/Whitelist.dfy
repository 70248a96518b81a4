/** The FXP address list of src/whitelist.cc. */
module Whitelists {
  import opened Strings
  import opened StringLists
  import opened ListFiles

  datatype FxpEntry = FxpEntry(ip: string, comment: string, user: string)

  function Ips(l: seq<FxpEntry>): (r: seq<string>)
    ensures |r| == |l|
  {
    seq(|l|, i requires 0 <= i < |l| => l[i].ip)
  }

  predicate Listed(l: seq<FxpEntry>, key: string) {
    exists e | e in l :: e.ip == key
  }

  /** `ip,comment,user`: everything after the second comma is the user. */
  function Parse(s: string): Option<FxpEntry> {
    var p := IndexOf(s, ',');
    if p == |s| then None
    else
      var rest := s[p + 1..];
      var q := IndexOf(rest, ',');
      if q == |rest| then None else Some(FxpEntry(s[..p], rest[..q], rest[q + 1..]))
  }

  function Line(e: FxpEntry): string {
    e.ip + "," + e.comment + "," + e.user
  }

  function Lines(l: seq<FxpEntry>): seq<string> {
    seq(|l|, i requires 0 <= i < |l| => Line(l[i]))
  }

  /** The list after `Insert` and its result code. */
  function Inserting(h: Hashing, l: seq<FxpEntry>, s: string): (seq<FxpEntry>, int) {
    var p := IndexOf(s, ',');
    if p == |s| then (l, 0)
    else if Listed(l, h.Key(s[..p])) then (l, 2)
    else
      match Parse(s)
      case None => (l, 0)
      case Some(e) => (l + [e.(ip := h.Key(e.ip))], 1)
  }

  /** `Insert_nokey`, used for lines of the file: addresses are stored as they stand. */
  function Loading(h: Hashing, l: seq<FxpEntry>, s: string): seq<FxpEntry> {
    if s == "" || Listed(l, h.Key(s)) then l
    else
      match Parse(s)
      case None => l
      case Some(e) => l + [e]
  }

  function LoadAll(h: Hashing, l: seq<FxpEntry>, lines: seq<string>): seq<FxpEntry> {
    if lines == [] then l
    else Loading(h, LoadAll(h, l, lines[..|lines| - 1]), lines[|lines| - 1])
  }

  /** The list without its first entry for `key`. */
  function Dropping(l: seq<FxpEntry>, key: string): seq<FxpEntry> {
    if l == [] then [] else if l[0].ip == key then l[1..] else [l[0]] + Dropping(l[1..], key)
  }

  class Whitelist {
    var hashing: Hashing
    const crypted_iplist: bool
    var List: seq<FxpEntry>

    constructor (hashing: Hashing, crypted_iplist: bool)
      ensures this.hashing == hashing && this.crypted_iplist == crypted_iplist && List == []
    {
      this.hashing := hashing;
      this.crypted_iplist := crypted_iplist;
      List := [];
    }

    method IsInList(s: string) returns (r: bool)
      ensures r <==> Listed(List, hashing.Key(s))
    {
      var tmp := s;
      if hashing.enabled {
        tmp := hashing.digest(s);
      }
      for i := 0 to |List|
        invariant forall j | 0 <= j < i :: List[j].ip != tmp
      {
        if List[i].ip == tmp {
          return true;
        }
      }
      return false;
    }

    method Insert(s: string) returns (code: int)
      modifies `List
      ensures (List, code) == Inserting(hashing, old(List), s)
    {
      if s == "" {
        return 0;
      }
      var pos := IndexOf(s, ',');
      if pos != |s| {
        var known := IsInList(s[..pos]);
        if known {
          return 2;
        }
        var ip := s[..pos];
        if hashing.enabled {
          ip := hashing.digest(s[..pos]);
        }
        var rest := s[pos + 1..];
        pos := IndexOf(rest, ',');
        if pos != |rest| {
          List := List + [FxpEntry(ip, rest[..pos], rest[pos + 1..])];
          return 1;
        } else {
          return 0;
        }
      } else {
        return 0;
      }
    }

    method Insert_nokey(s: string)
      modifies `List
      ensures List == Loading(hashing, old(List), s)
    {
      if s == "" {
        return;
      }
      var known := IsInList(s);
      if known {
        return;
      }
      var pos := IndexOf(s, ',');
      if pos != |s| {
        var ip := s[..pos];
        var rest := s[pos + 1..];
        pos := IndexOf(rest, ',');
        if pos != |rest| {
          List := List + [FxpEntry(ip, rest[..pos], rest[pos + 1..])];
        }
      }
    }

    method Remove(s: string)
      modifies `List
      ensures List == Dropping(old(List), hashing.RemoveKey(s))
    {
      var tmp := s;
      if hashing.enabled {
        IndexOfFirst(s, '.');
        var pos := IndexOf(s, '.');
        if pos != |s| {
          tmp := hashing.digest(s);
        }
      }
      var it := 0;
      while it < |List|
        invariant 0 <= it <= |List| && List == old(List)
        invariant !Listed(List[..it], tmp)
      {
        if List[it].ip == tmp {
          DroppingAt(List, tmp, it);
          List := List[..it] + List[it + 1..];
          return;
        }
        assert List[..it + 1] == List[..it] + [List[it]];
        it := it + 1;
      }
      assert List[..|List|] == List;
      DroppingAbsent(List, tmp);
    }

    method WriteList(disk: Disk, filename: string, key: string, writable: bool) returns (ok: bool)
      modifies disk
      ensures ok == writable
      ensures disk.files == if writable then old(disk.files)[filename := disk.cipher.Stored(key, Text(Lines(List)))]
                            else old(disk.files)
    {
      var daten := "";
      for i := 0 to |List|
        invariant daten == Text(Lines(List[..i])) && disk.files == old(disk.files)
      {
        LinesSnoc(List, i);
        daten := daten + (List[i].ip + "," + List[i].comment + "," + List[i].user + "\r\n");
      }
      assert List[..|List|] == List;
      var out := daten;
      if key != "" {
        out := disk.cipher.encrypt(key, daten);
      }
      ok := disk.WriteFile(filename, out, writable);
    }

    /** The text is read through a C string, so it must not hold a NUL. */
    method ReadList(disk: Disk, filename: string, key: string) returns (ok: bool)
      requires filename in disk.files ==> '\0' !in disk.cipher.Loaded(key, crypted_iplist, disk.files[filename])
      modifies `List
      ensures ok <==> filename in disk.files
      ensures !ok ==> List == old(List)
      ensures ok ==> List == LoadAll(hashing, old(List),
        Scan(disk.cipher.Loaded(key, crypted_iplist, disk.files[filename])).0)
    {
      if filename !in disk.files {
        return false;
      }
      var daten := disk.files[filename];
      if crypted_iplist {
        daten := disk.cipher.decrypt(key, daten);
      }
      var tmp := "";
      for i := 0 to |daten|
        invariant tmp == Scan(daten[..i]).1
        invariant List == LoadAll(hashing, old(List), Scan(daten[..i]).0)
      {
        assert daten[..i + 1][..i] == daten[..i];
        if daten[i] != '\r' && daten[i] != '\n' {
          tmp := tmp + [daten[i]];
        }
        if daten[i] == '\n' {
          ghost var lines := Scan(daten[..i]).0;
          assert (lines + [tmp])[..|lines|] == lines;
          Insert_nokey(tmp);
          tmp := "";
        }
      }
      assert daten[..|daten|] == daten;
      return true;
    }
  }

  lemma LinesSnoc(l: seq<FxpEntry>, i: nat)
    requires i < |l|
    ensures Text(Lines(l[..i + 1]))
         == Text(Lines(l[..i])) + (l[i].ip + "," + l[i].comment + "," + l[i].user + "\r\n")
  {
    var all := Lines(l[..i + 1]);
    assert all[..i] == Lines(l[..i]);
    assert all[i] == Line(l[i]);
    assert Text(Lines(l[..i])) + Line(l[i]) + "\r\n"
        == Text(Lines(l[..i])) + (l[i].ip + "," + l[i].comment + "," + l[i].user + "\r\n");
  }

  lemma {:induction false} DroppingAt(l: seq<FxpEntry>, key: string, k: nat)
    requires k < |l| && l[k].ip == key && !Listed(l[..k], key)
    ensures Dropping(l, key) == l[..k] + l[k + 1..]
  {
    if k > 0 {
      assert l[0] in l[..k];
      assert l[1..][..k - 1] == l[1..k];
      assert forall e | e in l[1..k] :: e in l[..k];
      DroppingAt(l[1..], key, k - 1);
      assert l[..k] == [l[0]] + l[1..k];
    }
  }

  lemma {:induction false} DroppingAbsent(l: seq<FxpEntry>, key: string)
    requires !Listed(l, key)
    ensures Dropping(l, key) == l
  {
    if l != [] {
      assert l[0] in l;
      DroppingAbsent(l[1..], key);
    }
  }

  // What every history keeps

  /** An entry whose line can be read back. */
  predicate Clean(e: FxpEntry) {
    && ',' !in e.ip && ',' !in e.comment
    && OneLine(e.ip) && OneLine(e.comment) && OneLine(e.user)
  }

  predicate AllClean(l: seq<FxpEntry>) {
    forall e | e in l :: Clean(e)
  }

  /** Assumed of the digests in hash mode. */
  ghost predicate CleanDigests(h: Hashing) {
    h.enabled ==> forall s :: ',' !in h.digest(s) && OneLine(h.digest(s))
  }

  lemma LineAssoc(ip: string, comment: string, user: string)
    ensures ip + [','] + (comment + [','] + user) == Line(FxpEntry(ip, comment, user))
  {
  }

  lemma ParsePieces(s: string)
    ensures Parse(s).Some? ==> s == Line(Parse(s).value)
    ensures Parse(s).Some? ==> ',' !in Parse(s).value.ip && ',' !in Parse(s).value.comment
    ensures Parse(s).Some? ==> Parse(s).value.ip == s[..IndexOf(s, ',')]
  {
    var p := IndexOf(s, ',');
    if p < |s| {
      IndexOfCut(s, ',');
      var rest := s[p + 1..];
      if IndexOf(rest, ',') < |rest| {
        IndexOfCut(rest, ',');
        LineAssoc(s[..p], rest[..IndexOf(rest, ',')], rest[IndexOf(rest, ',') + 1..]);
      }
    }
  }

  lemma ParseLine(e: FxpEntry)
    requires ',' !in e.ip && ',' !in e.comment
    ensures Parse(Line(e)) == Some(e)
    ensures ',' in Line(e)
  {
    var rest := e.comment + "," + e.user;
    assert Line(e) == e.ip + "," + rest;
    IndexOfAppend(e.ip, ',', rest);
    IndexOfAppend(e.comment, ',', e.user);
  }

  /** A line that is typed in full is stored as an entry of its three parts, under the key of its address,
      unless that is listed. */
  lemma InsertTyped(h: Hashing, l: seq<FxpEntry>, ip: string, comment: string, user: string)
    requires ',' !in ip && ',' !in comment
    ensures var key := if h.enabled then h.digest(ip) else ip;
      Inserting(h, l, ip + "," + comment + "," + user).0
        == l + if exists e | e in l :: e.ip == key then [] else [FxpEntry(key, comment, user)]
  {
    var entry := FxpEntry(ip, comment, user);
    assert ip + "," + comment + "," + user == Line(entry);
    ParseLine(entry);
    ParsePieces(Line(entry));
    assert l + [] == l;
  }

  /** A line of the file is stored as it stands, whatever addresses are listed; only a line that is itself stored
      as an address is left out. */
  lemma LoadedAsItStands(h: Hashing, l: seq<FxpEntry>, e: FxpEntry)
    requires ',' !in e.ip && ',' !in e.comment
    ensures var line := e.ip + "," + e.comment + "," + e.user;
      Loading(h, l, line) == l + if exists x | x in l :: x.ip == h.Key(line) then [] else [e]
    ensures Loading(h, l, "") == l
  {
    ParseLine(e);
    assert Line(e) == e.ip + "," + e.comment + "," + e.user;
    assert l + [] == l;
  }

  /** The result codes. */
  lemma InsertCodes(h: Hashing, l: seq<FxpEntry>, ip: string, rest: string)
    requires ',' !in ip
    ensures var key := if h.enabled then h.digest(ip) else ip;
      Inserting(h, l, ip + "," + rest).1 == if exists e | e in l :: e.ip == key then 2 else if ',' in rest then 1 else 0
    ensures Inserting(h, l, ip) == (l, 0)
  {
    IndexOfAbsent(ip, ',');
    IndexOfAppend(ip, ',', rest);
    assert ip + "," + rest == ip + [','] + rest;
    IndexOfFirst(rest, ',');
  }

  lemma OneLineParts(e: FxpEntry)
    ensures OneLine(Line(e)) <==> OneLine(e.ip) && OneLine(e.comment) && OneLine(e.user)
  {
    var s := Line(e);
    assert forall c | c in e.ip :: c in s;
    assert forall c | c in e.comment :: c in s by {
      assert s == (e.ip + ",") + (e.comment + "," + e.user);
    }
    assert forall c | c in e.user :: c in s;
  }

  datatype Edit = Insertion(s: string) | Removal(s: string)

  function Apply(h: Hashing, l: seq<FxpEntry>, e: Edit): seq<FxpEntry> {
    match e
    case Insertion(s) => Inserting(h, l, s).0
    case Removal(s) => Dropping(l, h.RemoveKey(s))
  }

  function History(h: Hashing, l: seq<FxpEntry>, es: seq<Edit>): seq<FxpEntry> {
    if es == [] then l else Apply(h, History(h, l, es[..|es| - 1]), es[|es| - 1])
  }

  lemma {:induction false} FirstListed(l: seq<FxpEntry>, key: string) returns (k: nat)
    requires Listed(l, key)
    ensures k < |l| && l[k].ip == key && !Listed(l[..k], key)
  {
    if l[0].ip == key {
      k := 0;
    } else {
      var k' := FirstListed(l[1..], key);
      k := k' + 1;
      assert l[..k] == [l[0]] + l[1..][..k'];
    }
  }

  lemma InsertDistinct(h: Hashing, l: seq<FxpEntry>, s: string)
    requires Distinct(Ips(l))
    ensures Distinct(Ips(Inserting(h, l, s).0))
  {
    ParsePieces(s);
    if Inserting(h, l, s).1 == 1 {
      var e := Parse(s).value;
      var e' := e.(ip := h.Key(e.ip));
      assert Ips(l + [e']) == Ips(l) + [e'.ip];
      forall i | 0 <= i < |l| ensures Ips(l)[i] != e'.ip {
        assert l[i] in l;
      }
    }
  }

  lemma RemoveDistinct(l: seq<FxpEntry>, key: string)
    requires Distinct(Ips(l))
    ensures Distinct(Ips(Dropping(l, key)))
    ensures forall e :: e in Dropping(l, key) <==> e in l && e.ip != key
  {
    if Listed(l, key) {
      var k := FirstListed(l, key);
      DroppingAt(l, key, k);
      var r := l[..k] + l[k + 1..];
      assert Ips(r) == Ips(l)[..k] + Ips(l)[k + 1..];
      DistinctCut(Ips(l), k);
      assert l == l[..k] + [l[k]] + l[k + 1..];
      forall e | e in l[k + 1..] ensures e.ip != key {
        var i :| k < i < |l| && l[i] == e;
        assert Ips(l)[k] != Ips(l)[i];
      }
    } else {
      DroppingAbsent(l, key);
    }
  }

  /** From an empty list, any sequence of `Insert` and `Remove` keeps the addresses pairwise
      distinct, whatever the lines hold and whatever the digests are. */
  lemma {:induction false} HistoryDistinct(h: Hashing, es: seq<Edit>)
    ensures Distinct(Ips(History(h, [], es)))
  {
    if es != [] {
      var init, last := es[..|es| - 1], es[|es| - 1];
      HistoryDistinct(h, init);
      match last {
        case Insertion(s) => InsertDistinct(h, History(h, [], init), s);
        case Removal(s) => RemoveDistinct(History(h, [], init), h.RemoveKey(s));
      }
    }
  }

  lemma InsertClean(h: Hashing, l: seq<FxpEntry>, s: string)
    requires CleanDigests(h) && OneLine(s) && AllClean(l)
    ensures AllClean(Inserting(h, l, s).0)
  {
    ParsePieces(s);
    if Parse(s).Some? {
      var e := Parse(s).value;
      OneLineParts(e);
      assert Clean(e.(ip := h.Key(e.ip)));
    }
  }

  /** One-line edits and clean digests keep every entry readable as well. */
  lemma {:induction false} HistoryClean(h: Hashing, es: seq<Edit>)
    requires CleanDigests(h)
    requires forall e | e in es :: OneLine(e.s)
    ensures AllClean(History(h, [], es))
  {
    if es != [] {
      var init, last := es[..|es| - 1], es[|es| - 1];
      HistoryClean(h, init);
      HistoryDistinct(h, init);
      assert last in es;
      match last {
        case Insertion(s) => InsertClean(h, History(h, [], init), s);
        case Removal(s) => RemoveDistinct(History(h, [], init), h.RemoveKey(s));
      }
    }
  }

  // Writing and reading back

  /** `Insert_nokey` looks up the whole line; no line may be taken for a stored address. In plain
      mode the comma rules that out, in hash mode it is assumed of the digests. */
  ghost predicate NoLineIsAnAddress(h: Hashing, l: seq<FxpEntry>) {
    h.enabled ==> forall e, f | e in l && f in l :: h.digest(Line(e)) != f.ip
  }

  lemma {:induction false} LoadLines(h: Hashing, l: seq<FxpEntry>, n: nat)
    requires AllClean(l) && NoLineIsAnAddress(h, l) && n <= |l|
    ensures LoadAll(h, [], Lines(l)[..n]) == l[..n]
  {
    if n > 0 {
      LoadLines(h, l, n - 1);
      assert Lines(l)[..n][..n - 1] == Lines(l)[..n - 1];
      var e := l[n - 1];
      assert e in l;
      ParseLine(e);
      forall f | f in l[..n - 1] ensures f.ip != h.Key(Line(e)) {
        assert f in l;
        assert Clean(f);
      }
      assert l[..n] == l[..n - 1] + [e];
    }
  }

  lemma LinesAreClean(l: seq<FxpEntry>)
    requires AllClean(l)
    ensures forall x | x in Lines(l) :: OneLine(x)
  {
    forall x | x in Lines(l) ensures OneLine(x) {
      var i :| 0 <= i < |Lines(l)| && Lines(l)[i] == x;
      assert l[i] in l;
      OneLineParts(l[i]);
    }
  }

  /** What is written can be read, and reading it restores the same entries in the same order. */
  lemma WriteThenRead(h: Hashing, cipher: Cipher, key: string, crypted: bool, l: seq<FxpEntry>)
    requires AllClean(l) && NoLineIsAnAddress(h, l)
    requires crypted <==> key != ""
    requires crypted ==> cipher.Inverse(key)
    ensures var data := cipher.Loaded(key, crypted, cipher.Stored(key, Text(Lines(l))));
      '\0' !in data && LoadAll(h, [], Scan(data).0) == l
  {
    cipher.StoredLoaded(key, crypted, Text(Lines(l)));
    LinesAreClean(l);
    ScanText(Lines(l));
    TextHasNoNul(Lines(l));
    LoadLines(h, l, |l|);
    assert Lines(l)[..|l|] == Lines(l) && l[..|l|] == l;
  }

  /** In plain mode every list that administrators can build survives a restart, whatever commas
      its user fields hold. */
  lemma PlainHistoriesPersist(digest: string -> string, cipher: Cipher, es: seq<Edit>)
    requires forall e | e in es :: OneLine(e.s)
    ensures var h := Hashing(false, digest);
      var l := History(h, [], es);
      LoadAll(h, [], Scan(cipher.Loaded("", false, cipher.Stored("", Text(Lines(l))))).0) == l
  {
    var h := Hashing(false, digest);
    HistoryClean(h, es);
    WriteThenRead(h, cipher, "", false, History(h, [], es));
  }
}
