/** What src/whitelist.cc and src/fpwhitelist.cc share: text files of CR LF lines, possibly
    encrypted with a key. */
module ListFiles {
  import opened Strings

  // Stored addresses

  /** `use_fxpiphash`, and `hash(bk + s, hash_algo)` as a function of `s`. */
  datatype Hashing = Hashing(enabled: bool, digest: string -> string)
  {
    /** The form in which an address is stored and looked up. */
    function Key(s: string): string {
      if enabled then digest(s) else s
    }

    /** `Remove` also takes a digest as it is, which it knows by the absence of dots. */
    function RemoveKey(s: string): string {
      if enabled && '.' in s then digest(s) else s
    }
  }

  // Lines

  /** The reading loop: the lines completed by LF so far and the text of the unfinished one.
      CR is dropped wherever it stands. */
  function Scan(s: string): (seq<string>, string) {
    if s == "" then ([], "")
    else
      var (lines, tmp) := Scan(s[..|s| - 1]);
      var c := s[|s| - 1];
      if c == '\n' then (lines + [tmp], "")
      else if c == '\r' then (lines, tmp)
      else (lines, tmp + [c])
  }

  /** The writing loop. */
  function Text(lines: seq<string>): string {
    if lines == [] then ""
    else Text(lines[..|lines| - 1]) + lines[|lines| - 1] + "\r\n"
  }

  predicate OneLine(s: string) {
    '\r' !in s && '\n' !in s && '\0' !in s
  }

  lemma {:induction false} ScanPlain(a: string, x: string)
    requires OneLine(x)
    ensures Scan(a + x) == (Scan(a).0, Scan(a).1 + x)
  {
    if x == "" {
      assert a + x == a && Scan(a).1 + x == Scan(a).1;
    } else {
      var last := |x| - 1;
      assert (a + x)[..|a + x| - 1] == a + x[..last];
      assert forall c | c in x[..last] :: c in x;
      ScanPlain(a, x[..last]);
      assert x[last] in x;
      var t := Scan(a).1;
      assert (t + x[..last]) + [x[last]] == t + x;
    }
  }

  lemma ScanLine(a: string, line: string)
    requires OneLine(line)
    ensures Scan(a + line + "\r\n") == (Scan(a).0 + [Scan(a).1 + line], "")
  {
    ScanPlain(a, line);
    var s := a + line + "\r\n";
    assert s[..|s| - 1] == a + line + "\r";
    assert (a + line + "\r")[..|a + line|] == a + line;
  }

  /** Reading the text of some lines gives these lines. */
  lemma {:induction false} ScanText(lines: seq<string>)
    requires forall l | l in lines :: OneLine(l)
    ensures Scan(Text(lines)) == (lines, "")
  {
    if lines != [] {
      var init, last := lines[..|lines| - 1], lines[|lines| - 1];
      ScanText(init);
      ScanLine(Text(init), last);
      assert "" + last == last;
      assert lines == init + [last];
    }
  }

  lemma {:induction false} TextHasNoNul(lines: seq<string>)
    requires forall l | l in lines :: OneLine(l)
    ensures '\0' !in Text(lines)
  {
    if lines != [] {
      TextHasNoNul(lines[..|lines| - 1]);
      assert lines[|lines| - 1] in lines;
    }
  }

  // Files

  /** `encrypt` and `decrypt`, each applied to a key and a text; nothing is assumed of them here. */
  datatype Cipher = Cipher(encrypt: (string, string) -> string, decrypt: (string, string) -> string)
  {
    /** What `WriteList` puts into the file: an empty key means plain text. */
    function Stored(key: string, daten: string): string {
      if key == "" then daten else encrypt(key, daten)
    }

    /** What `ReadList` makes of the file: the configuration, not the key, says if it is encrypted. */
    function Loaded(key: string, crypted: bool, data: string): string {
      if crypted then decrypt(key, data) else data
    }

    ghost predicate Inverse(key: string) {
      forall t :: decrypt(key, encrypt(key, t)) == t
    }

    /** Whether the file is decrypted is up to the configuration, even if it was written with a key, or without. */
    lemma KeyAndFlagApart(key: string, daten: string)
      ensures key != "" ==> Loaded(key, false, Stored(key, daten)) == encrypt(key, daten)
      ensures Loaded("", true, Stored("", daten)) == decrypt("", daten)
    {
    }

    /** A list survives the disk when the key is used on both sides or on neither. */
    lemma StoredLoaded(key: string, crypted: bool, daten: string)
      requires crypted <==> key != ""
      requires crypted ==> Inverse(key)
      ensures Loaded(key, crypted, Stored(key, daten)) == daten
    {
    }
  }

  class Disk {
    const cipher: Cipher
    var files: map<string, string>

    constructor (cipher: Cipher)
      ensures this.cipher == cipher && files == map[]
    {
      this.cipher := cipher;
      files := map[];
    }

    /** `writefile`; `writable` is whether the system lets the file be opened. */
    method WriteFile(filename: string, data: string, writable: bool) returns (ok: bool)
      modifies this
      ensures ok == writable
      ensures files == if writable then old(files)[filename := data] else old(files)
    {
      if writable {
        files := files[filename := data];
      }
      return writable;
    }
  }
}
