/** The configuration text of src/config.cc: `getkey`, `getentry` and the parsing in `readconf`. */
module Configs {
  import opened Strings
  import opened ListFiles

  const ERROR := "ERROR"

  /** `getkey`: the text between the first `name=` and the next ';'. */
  function Getkey(name: string, data: string): string {
    var start := Find(data, name + "=");
    if start.None? then ERROR else ValueAt(name + "=", data, start.value)
  }

  function ValueAt(pat: string, data: string, start: nat): string {
    if start + |pat| > |data| || (start > 0 && data[start - 1] == '#') then ERROR
    else
      var end := IndexOf(data[start..], ';');
      if start + end == |data| then ERROR else Substr(data, start + |pat|, end - |pat|)
  }

  // Fields

  /** A field of the configuration. `Real` keeps the text that the source gives to `atof`. */
  datatype Value = Text(s: string) | Int(n: int) | Real(text: string)
  {
    /** The same kind of field with the value read from `val`. */
    function From(val: string): Value {
      match this
      case Text(_) => Text(val)
      case Int(_) => Int(Atoi(val))
      case Real(_) => Real(val)
    }
  }

  function Entry(field: Value, name: string, data: string): Value {
    if Getkey(name, data) != ERROR then field.From(Getkey(name, data)) else field
  }

  class Config {
    var fields: map<string, Value>

    constructor (defaults: map<string, Value>)
      ensures fields == defaults
    {
      fields := defaults;
    }

    /** The three overloads of `getentry`; `ok` is set to 0 when the default stays. */
    method GetEntry(s: string, ok: bool, daten: string) returns (ok': bool)
      requires s in fields
      modifies this
      ensures fields == old(fields)[s := Entry(old(fields)[s], s, daten)]
      ensures ok' <==> ok && Getkey(s, daten) != ERROR
    {
      ok' := ok;
      var val := Getkey(s, daten);
      if val != "ERROR" {
        match fields[s] {
          case Text(_) => fields := fields[s := Text(val)];
          case Int(_) => fields := fields[s := Int(Atoi(val))];
          case Real(_) => fields := fields[s := Real(val)];
        }
      } else {
        ok' := false;
      }
    }

    /** Asks for every key once, in the order of the source. Missing keys do not make it fail. */
    method ReadConf(disk: Disk, filename: string, key: string, crypted: bool, keys: seq<string>) returns (r: bool)
      requires forall k | k in keys :: k in fields
      requires forall i, j | 0 <= i < j < |keys| :: keys[i] != keys[j]
      modifies this
      ensures r <==> filename in disk.files
      ensures !r ==> fields == old(fields)
      ensures r ==> fields.Keys == old(fields).Keys
      ensures r ==> var daten := disk.cipher.Loaded(key, crypted, disk.files[filename]);
        forall k | k in old(fields) ::
          fields[k] == if k in keys then Entry(old(fields)[k], k, daten) else old(fields)[k]
    {
      if filename !in disk.files {
        return false;
      }
      var daten := disk.files[filename];
      if crypted {
        daten := disk.cipher.decrypt(key, daten);
      }
      var ok := true;
      for i := 0 to |keys|
        invariant fields.Keys == old(fields).Keys
        invariant forall k | k in old(fields) ::
          fields[k] == if k in keys[..i] then Entry(old(fields)[k], k, daten) else old(fields)[k]
      {
        assert keys[i] !in keys[..i];
        assert keys[..i + 1] == keys[..i] + [keys[i]];
        ok := GetEntry(keys[i], ok, daten);
      }
      assert keys[..|keys|] == keys;
      return true;
    }
  }

  // Configuration files

  /** A line of the file: a setting, a setting behind '#', or any other text. */
  datatype Item = Setting(key: string, value: string) | Disabled(key: string, value: string) | Other(text: string)

  function Line(item: Item): string {
    match item
    case Setting(key, value) => SettingText(key, value)
    case Disabled(key, value) => "#" + SettingText(key, value)
    case Other(text) => text + "\n"
  }

  function SettingText(key: string, value: string): string {
    key + ("=" + (value + ";\n"))
  }

  function Render(items: seq<Item>): string {
    if items == [] then "" else Line(items[0]) + Render(items[1..])
  }

  /** What the file says about a key: its first mention decides, and a mention behind '#'
      hides every later one. */
  function Meaning(name: string, items: seq<Item>): string {
    if items == [] then ERROR
    else if items[0].Setting? && items[0].key == name then items[0].value
    else if items[0].Disabled? && items[0].key == name then ERROR
    else Meaning(name, items[1..])
  }

  predicate IsSuffix(a: string, b: string) {
    |a| <= |b| && b[|b| - |a|..] == a
  }

  predicate Name(s: string) {
    s != "" && '=' !in s && ';' !in s && '\n' !in s && '#' !in s
  }

  /** Values and other texts must not hold what is searched for. */
  ghost predicate FairText(name: string, item: Item) {
    match item
    case Other(text) => !Contains(text, name + "=")
    case _ => Name(item.key) && ';' !in item.value && !Contains(item.value, name + "=")
  }

  /** And no other key may end in the name, for the search not to be misled. */
  ghost predicate Fair(name: string, item: Item) {
    FairText(name, item) && (EndsIn(name, item) ==> item.key == name)
  }

  predicate EndsIn(name: string, item: Item) {
    !item.Other? && IsSuffix(name, item.key)
  }

  /** The first line whose key ends in the name, or `|items|`. */
  function FirstEnding(name: string, items: seq<Item>): (k: nat)
    ensures k <= |items|
    ensures k < |items| ==> EndsIn(name, items[k])
  {
    if items == [] || EndsIn(name, items[0]) then 0 else 1 + FirstEnding(name, items[1..])
  }

  /** An occurrence of `name=` that begins in the key is the end of the key. */
  lemma OccurrenceInKey(name: string, key: string, rest: string, i: nat)
    requires '=' !in name && '=' !in key && i <= |key|
    requires OccursAt(key + ("=" + rest), name + "=", i)
    ensures i + |name| == |key| && key[i..] == name
  {
    var s := key + ("=" + rest);
    var found := s[i..i + |name| + 1];
    assert found[|name|] == s[i + |name|] == '=';
    assert s[|key|] == '=';
    assert forall j | i <= j < i + |name| :: s[j] == found[j - i] == name[j - i];
    assert name == found[..|name|] == s[i..i + |name|] == key[i..];
  }

  /** A later one lies inside the value. */
  lemma OccurrenceInValue(name: string, value: string, k: nat)
    requires OccursAt(value + ";\n", name + "=", k)
    ensures Contains(value, name + "=")
  {
    var s := value + ";\n";
    var found := s[k..k + |name| + 1];
    assert found[|name|] == s[k + |name|] == '=';
    assert s[|value|] == ';' && s[|value| + 1] == '\n';
    assert value[k..k + |name| + 1] == found;
    assert OccursAt(value, name + "=", k);
  }

  lemma SettingOccurrence(name: string, key: string, value: string, i: nat)
    requires Name(name) && Name(key)
    requires OccursAt(SettingText(key, value), name + "=", i)
    ensures (i + |name| == |key| && key[i..] == name) || Contains(value, name + "=")
  {
    var rest := value + ";\n";
    if i <= |key| {
      OccurrenceInKey(name, key, rest, i);
    } else {
      var head := key + "=";
      assert SettingText(key, value) == head + rest;
      OccursLater(head, rest, name + "=", i - |head|);
      OccurrenceInValue(name, value, i - |head|);
    }
  }

  lemma OccursLater(head: string, tail: string, pat: string, i: nat)
    ensures OccursAt(head + tail, pat, |head| + i) <==> OccursAt(tail, pat, i)
  {
    if i + |pat| <= |tail| {
      assert (head + tail)[|head| + i..|head| + i + |pat|] == tail[i..i + |pat|];
    }
  }

  lemma OccursInLine(head: string, tail: string, pat: string, i: nat)
    requires head != "" && head[|head| - 1] == '\n' && '\n' !in pat
    requires i < |head| && OccursAt(head + tail, pat, i)
    ensures OccursAt(head, pat, i)
  {
    var s := head + tail;
    var found := s[i..i + |pat|];
    assert forall j | 0 <= j < |pat| :: s[i + j] == found[j] == pat[j];
    assert forall j | i <= j < i + |pat| :: s[j] == pat[j - i] && s[j] != '\n';
    assert s[|head| - 1] == '\n';
    assert head[i..i + |pat|] == found;
  }

  /** Text in front in which no occurrence begins only shifts the result. */
  lemma {:induction false} FindLater(head: string, tail: string, pat: string)
    requires forall i: nat | i < |head| :: !OccursAt(head + tail, pat, i)
    ensures Find(head + tail, pat) == match Find(tail, pat) case None => None case Some(v) => Some(|head| + v)
  {
    var text := head + tail;
    if head == "" {
      assert text == tail;
    } else {
      assert text[1..] == head[1..] + tail;
      assert !OccursAt(text, pat, 0);
      forall i: nat | i < |head[1..]| ensures !OccursAt(head[1..] + tail, pat, i) {
        OccursInTail(text, pat, i + 1);
      }
      FindLater(head[1..], tail, pat);
    }
  }

  lemma FindSkips(pat: string, head: string, tail: string)
    requires head != "" && head[|head| - 1] == '\n' && '\n' !in pat && !Contains(head, pat)
    ensures Find(head + tail, pat) == match Find(tail, pat) case None => None case Some(v) => Some(|head| + v)
  {
    forall i: nat | i < |head| ensures !OccursAt(head + tail, pat, i) {
      if OccursAt(head + tail, pat, i) {
        OccursInLine(head, tail, pat, i);
      }
    }
    FindLater(head, tail, pat);
  }

  lemma FoundValue(name: string, data: string, v: nat)
    requires Find(data, name + "=") == Some(v)
    ensures Getkey(name, data) == ValueAt(name + "=", data, v)
  {
  }

  lemma NotFoundValue(name: string, data: string)
    requires Find(data, name + "=") == None
    ensures Getkey(name, data) == ERROR
  {
  }

  lemma SkipFound(name: string, head: string, tail: string, v: nat)
    requires head != "" && head[|head| - 1] != '#'
    requires Find(tail, name + "=") == Some(v) && Find(head + tail, name + "=") == Some(|head| + v)
    ensures Getkey(name, head + tail) == Getkey(name, tail)
  {
    FindFirst(tail, name + "=");
    SameValue(name + "=", head, tail, v);
    FoundValue(name, tail, v);
    FoundValue(name, head + tail, |head| + v);
  }

  /** A line without the pattern does not influence the lookup. */
  lemma SkipLine(name: string, head: string, tail: string)
    requires Name(name)
    requires head != "" && head[|head| - 1] == '\n' && !Contains(head, name + "=")
    ensures Getkey(name, head + tail) == Getkey(name, tail)
  {
    FindSkips(name + "=", head, tail);
    match Find(tail, name + "=") {
      case Some(v) => SkipFound(name, head, tail, v);
      case None =>
        NotFoundValue(name, tail);
        NotFoundValue(name, head + tail);
    }
  }

  lemma SameValue(pat: string, head: string, tail: string, v: nat)
    requires v + |pat| <= |tail|
    requires v == 0 ==> head != "" && head[|head| - 1] != '#'
    ensures ValueAt(pat, head + tail, |head| + v) == ValueAt(pat, tail, v)
  {
    var s := head + tail;
    assert s[|head| + v..] == tail[v..];
    assert s[|head| + v + |pat|..] == tail[v + |pat|..];
    var end := IndexOf(tail[v..], ';');
    if end >= |pat| {
      assert s[|head| + v + |pat|..|head| + v + end] == tail[v + |pat|..v + end];
    }
  }

  lemma FoundAt(name: string, data: string, start: nat)
    requires OccursAt(data, name + "=", start)
    requires forall i: nat | i < start :: !OccursAt(data, name + "=", i)
    ensures Find(data, name + "=") == Some(start)
  {
    FindFirst(data, name + "=");
  }

  lemma ValueOf(pat: string, value: string, tail: string)
    requires ';' !in pat && ';' !in value && pat != ""
    ensures ValueAt(pat, pat + (value + ";\n" + tail), 0) == value
  {
    var data := pat + (value + ";\n" + tail);
    var head := pat + value;
    IndexOfAppend(head, ';', "\n" + tail);
    assert data == head + [';'] + ("\n" + tail);
    assert data[0..] == data;
    assert data[|pat|..|head|] == value;
  }

  /** The value behind the first occurrence, wherever it is, unless a '#' stands before it. */
  lemma ValueBehind(name: string, prefix: string, value: string, tail: string)
    requires Name(name) && ';' !in value
    requires prefix != "" ==> prefix[|prefix| - 1] != '#'
    requires var pat := name + "="; forall i: nat | i < |prefix| :: !OccursAt(prefix + (pat + (value + ";\n" + tail)), pat, i)
    ensures Getkey(name, prefix + (name + "=" + (value + ";\n" + tail))) == value
  {
    var pat := name + "=";
    var rest := pat + (value + ";\n" + tail);
    assert rest[0..|pat|] == pat;
    OccursLater(prefix, rest, pat, 0);
    FoundAt(name, prefix + rest, |prefix|);
    ValueOf(pat, value, tail);
    if prefix == "" {
      assert prefix + rest == rest;
    } else {
      SameValue(pat, prefix, rest, 0);
    }
  }

  lemma DisabledValue(name: string, value: string, tail: string)
    requires Name(name)
    ensures Getkey(name, "#" + SettingText(name, value) + tail) == ERROR
  {
    var pat := name + "=";
    var data := "#" + SettingText(name, value) + tail;
    assert data[1..1 + |pat|] == pat;
    assert data[0..|pat|][0] == '#' && pat[0] == name[0];
    FoundAt(name, data, 1);
  }

  lemma TextOccurrence(text: string, pat: string, i: nat)
    requires OccursAt(text + "\n", pat, i) && pat != "" && '\n' !in pat
    ensures OccursAt(text, pat, i)
  {
    var s := text + "\n";
    var found := s[i..i + |pat|];
    assert forall j | 0 <= j < |pat| :: s[i + j] == found[j] == pat[j];
    assert forall j | i <= j < i + |pat| :: s[j] == pat[j - i] && s[j] != '\n';
    assert s[|text|] == '\n';
    assert text[i..i + |pat|] == found;
  }

  lemma LineEnds(item: Item)
    ensures Line(item) != "" && Line(item)[|Line(item)| - 1] == '\n'
  {
  }

  /** Where `name=` can occur in a line: only where a key ends in the name. */
  lemma LineOccurrence(name: string, item: Item, i: nat)
    requires Name(name) && FairText(name, item)
    requires OccursAt(Line(item), name + "=", i)
    ensures EndsIn(name, item) && i + |name| == |item.key| + (if item.Disabled? then 1 else 0)
  {
    match item {
      case Setting(key, value) => SettingOccurrence(name, key, value, i);
      case Disabled(key, value) =>
        assert Line(item)[i] == Line(item)[i..i + |name| + 1][0] == name[0];
        OccursLater("#", SettingText(key, value), name + "=", i - 1);
        SettingOccurrence(name, key, value, i - 1);
      case Other(text) => TextOccurrence(text, name + "=", i);
    }
  }

  lemma QuietLine(name: string, item: Item)
    requires Name(name) && FairText(name, item) && !EndsIn(name, item)
    ensures !Contains(Line(item), name + "=")
  {
    if Contains(Line(item), name + "=") {
      var i: nat :| OccursAt(Line(item), name + "=", i);
      LineOccurrence(name, item, i);
    }
  }

  /** The text of a line around the point where its key ends in the name. */
  lemma LineParts(name: string, item: Item, tail: string) returns (prefix: string)
    requires EndsIn(name, item)
    ensures |prefix| + |name| == |item.key| + (if item.Disabled? then 1 else 0)
    ensures Line(item) + tail == prefix + (name + "=" + (item.value + ";\n" + tail))
    ensures prefix == (if item.Disabled? then "#" else "") + item.key[..|item.key| - |name|]
  {
    var before := item.key[..|item.key| - |name|];
    assert item.key == before + name;
    prefix := (if item.Disabled? then "#" else "") + before;
    SettingRegrouped(before, name, item.value, tail);
    assert SettingText(item.key, item.value) + tail == before + (name + "=" + (item.value + ";\n" + tail));
    if item.Disabled? {
      assert Line(item) + tail == "#" + (SettingText(item.key, item.value) + tail);
    }
  }

  lemma SettingRegrouped(before: string, name: string, value: string, tail: string)
    ensures SettingText(before + name, value) + tail == before + (name + "=" + (value + ";\n" + tail))
  {
    var rest := "=" + (value + ";\n");
    assert (before + name) + rest + tail == before + (name + (rest + tail));
    assert name + (rest + tail) == name + "=" + (value + ";\n" + tail);
  }

  /** A line whose key ends in the name answers the search with its value, unless it has that very key
      and stands behind '#'. */
  lemma EndingLine(name: string, item: Item, tail: string)
    requires Name(name) && FairText(name, item) && EndsIn(name, item)
    ensures Getkey(name, Line(item) + tail) == if item.Disabled? && item.key == name then ERROR else item.value
  {
    if item.Disabled? && item.key == name {
      DisabledValue(name, item.value, tail);
    } else {
      var prefix := LineParts(name, item, tail);
      LineEnds(item);
      forall i: nat | i < |prefix| ensures !OccursAt(Line(item) + tail, name + "=", i) {
        if OccursAt(Line(item) + tail, name + "=", i) {
          OccursInLine(Line(item), tail, name + "=", i);
          LineOccurrence(name, item, i);
        }
      }
      if prefix != "" {
        assert prefix[|prefix| - 1] in item.key;
      }
      ValueBehind(name, prefix, item.value, tail);
    }
  }

  /** What the text search finds: the first line whose key ends in the name decides. */
  lemma {:induction false} LookupFindsFirstEnding(name: string, items: seq<Item>)
    requires Name(name)
    requires forall item | item in items :: FairText(name, item)
    ensures var k := FirstEnding(name, items);
      Getkey(name, Render(items)) ==
        if k == |items| || (items[k].Disabled? && items[k].key == name) then ERROR else items[k].value
  {
    if items == [] {
      FindFirst("", name + "=");
    } else {
      var item, tail := items[0], Render(items[1..]);
      assert item in items;
      if EndsIn(name, item) {
        EndingLine(name, item, tail);
      } else {
        QuietLine(name, item);
        LineEnds(item);
        SkipLine(name, Line(item), tail);
        LookupFindsFirstEnding(name, items[1..]);
      }
    }
  }

  lemma {:induction false} MeaningFromFirstEnding(name: string, items: seq<Item>)
    ensures var k := FirstEnding(name, items);
      && (k == |items| ==> Meaning(name, items) == ERROR)
      && (k < |items| && items[k].key == name ==> Meaning(name, items) == if items[k].Disabled? then ERROR else items[k].value)
  {
    if items != [] && !EndsIn(name, items[0]) {
      MeaningFromFirstEnding(name, items[1..]);
    }
  }

  /** The first-occurrence search computes what the file says exactly when the first line whose key
      ends in the name has that very key, or happens to have the right value. */
  lemma LookupIsMeaningExactly(name: string, items: seq<Item>)
    requires Name(name)
    requires forall item | item in items :: FairText(name, item)
    ensures var k := FirstEnding(name, items);
      && (Getkey(name, Render(items)) == Meaning(name, items)
          <==> k == |items| || items[k].key == name || items[k].value == Meaning(name, items))
  {
    LookupFindsFirstEnding(name, items);
    MeaningFromFirstEnding(name, items);
  }

  /** So it does for keys of which none ends in another, in any order of the lines. */
  lemma LookupIsMeaning(name: string, items: seq<Item>)
    requires Name(name)
    requires forall item | item in items :: Fair(name, item)
    ensures Getkey(name, Render(items)) == Meaning(name, items)
  {
    LookupIsMeaningExactly(name, items);
    MeaningFromFirstEnding(name, items);
    if FirstEnding(name, items) < |items| {
      assert items[FirstEnding(name, items)] in items;
    }
  }

  /** Reading a rendered file: a key that is set gets its value, unless the value is the text
      "ERROR"; a key that is missing, or mentioned first behind '#', keeps its default. */
  lemma ConfigRoundTrip(name: string, items: seq<Item>, default: Value)
    requires Name(name)
    requires forall item | item in items :: Fair(name, item)
    ensures Entry(default, name, Render(items))
         == if Meaning(name, items) == ERROR then default else default.From(Meaning(name, items))
  {
    LookupIsMeaning(name, items);
  }

  /** What a field makes of the value: a text is taken as it is, a printed number is that number, and text
      for `atof` is passed on. */
  lemma FieldsFromText(name: string, items: seq<Item>, text: string, n: int, rest: string)
    requires Name(name) && text != ERROR && (rest == "" || !IsDigit(rest[0]))
    requires forall item | item in items :: Fair(name, item)
    requires Meaning(name, items) == text
    ensures forall default :: Entry(Text(default), name, Render(items)) == Text(text)
    ensures forall default :: Entry(Real(default), name, Render(items)) == Real(text)
    ensures text == DecInt(n) + rest ==> forall default :: Entry(Int(default), name, Render(items)) == Int(n)
  {
    LookupIsMeaning(name, items);
    AtoiOfDec(n, rest);
  }

  /** For settings of pairwise different keys, the order of the lines does not matter: each key
      gets the value of its own line. */
  lemma {:induction false} EachKeyItsOwnValue(items: seq<Item>, k: nat)
    requires forall i | 0 <= i < |items| :: items[i].Setting?
    requires forall i, j | 0 <= i < j < |items| :: items[i].key != items[j].key
    requires k < |items|
    ensures Meaning(items[k].key, items) == items[k].value
  {
    if k > 0 {
      assert items[0].key != items[k].key;
      EachKeyItsOwnValue(items[1..], k - 1);
    }
  }

  /** The condition on keys is needed: any line whose key ends in the name, when it comes before every
      line of that key, answers for it. */
  lemma SuffixMisleads(name: string, before: seq<Item>, item: Item, after: seq<Item>)
    requires Name(name) && forall i | i in before + [item] + after :: FairText(name, i)
    requires forall i | i in before :: !EndsIn(name, i)
    requires EndsIn(name, item) && item.key != name
    ensures Getkey(name, Render(before + [item] + after)) == item.value
    ensures Meaning(name, before + [item] + after) == Meaning(name, after)
  {
    EndingAfter(name, before, [item] + after);
    assert before + [item] + after == before + ([item] + after);
    LookupFindsFirstEnding(name, before + [item] + after);
  }

  lemma {:induction false} EndingAfter(name: string, before: seq<Item>, rest: seq<Item>)
    requires forall i | i in before :: !EndsIn(name, i)
    ensures FirstEnding(name, before + rest) == |before| + FirstEnding(name, rest)
    ensures Meaning(name, before + rest) == Meaning(name, rest)
  {
    if before == [] {
      assert before + rest == rest;
    } else {
      assert before[0] in before;
      assert (before + rest)[1..] == before[1..] + rest;
      EndingAfter(name, before[1..], rest);
    }
  }
}
