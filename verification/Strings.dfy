/** Text operations shared by the other modules: the uses of `std::string` and of
    the C library that yatb's own parsers are built from. */
module Strings {

  datatype Option<+T> = None | Some(value: T)

  /** `s.find(c, 0)`: the first position of `c`, and `|s|` where the C++ result is npos.
      What it means is `IndexOfFirst`, kept apart from the definition to keep proofs quick. */
  function IndexOf(s: string, c: char): (i: nat)
    ensures i <= |s|
  {
    if s == "" || s[0] == c then 0 else 1 + IndexOf(s[1..], c)
  }

  lemma {:induction false} IndexOfFirst(s: string, c: char)
    ensures var i := IndexOf(s, c);
      && (i < |s| ==> s[i] == c)
      && (i < |s| <==> c in s)
      && c !in s[..i]
  {
    if s != "" && s[0] != c {
      IndexOfFirst(s[1..], c);
      assert s[..IndexOf(s, c)] == [s[0]] + s[1..][..IndexOf(s[1..], c)];
    }
  }

  lemma IndexOfCut(s: string, c: char)
    requires IndexOf(s, c) < |s|
    ensures var i := IndexOf(s, c);
      s == s[..i] + [c] + s[i + 1..] && c !in s[..i]
  {
    IndexOfFirst(s, c);
  }

  lemma {:induction false} IndexOfAppend(a: string, c: char, b: string)
    requires c !in a
    ensures IndexOf(a + [c] + b, c) == |a|
    ensures (a + [c] + b)[..|a|] == a
    ensures (a + [c] + b)[|a| + 1..] == b
  {
    if a != "" {
      assert (a + [c] + b)[1..] == a[1..] + [c] + b;
      IndexOfAppend(a[1..], c, b);
    }
  }

  lemma {:induction false} IndexOfAbsent(s: string, c: char)
    requires c !in s
    ensures IndexOf(s, c) == |s|
  {
    if s != "" {
      IndexOfAbsent(s[1..], c);
    }
  }

  /** `s.substr(pos, n)`; a negative count wraps around to a huge one, which means the rest. */
  function Substr(s: string, pos: nat, n: int): string
    requires pos <= |s|
  {
    if n < 0 || pos + n > |s| then s[pos..] else s[pos..pos + n]
  }

  /** A count that reaches to the end or beyond, or wraps around, means the rest. */
  lemma SubstrExactly(a: string, b: string, c: string, n: int)
    ensures Substr(a + b + c, |a|, |b|) == b
    ensures n < 0 || n >= |b| ==> Substr(a + b, |a|, n) == b
  {
    assert (a + b + c)[|a|..|a| + |b|] == b;
    assert (a + b)[|a|..] == b && (a + b)[|a|..|a| + |b|] == b;
  }

  /** The pieces of `s` between the separators; never empty, as `Split("")` is `[""]`. */
  function Split(s: string, sep: char): (ts: seq<string>)
    ensures |ts| >= 1
    decreases |s|
  {
    var i := IndexOf(s, sep);
    if i == |s| then [s] else [s[..i]] + Split(s[i + 1..], sep)
  }

  function Join(ts: seq<string>, sep: char): string {
    if |ts| == 0 then ""
    else if |ts| == 1 then ts[0]
    else ts[0] + [sep] + Join(ts[1..], sep)
  }

  ghost predicate AllFree(ts: seq<string>, c: char) {
    forall t | t in ts :: c !in t
  }

  lemma {:induction false} SplitPieces(s: string, sep: char)
    ensures AllFree(Split(s, sep), sep)
    ensures Join(Split(s, sep), sep) == s
    decreases |s|
  {
    var i := IndexOf(s, sep);
    IndexOfFirst(s, sep);
    if i < |s| {
      SplitPieces(s[i + 1..], sep);
      assert s == s[..i] + [sep] + s[i + 1..];
      assert Split(s, sep)[1..] == Split(s[i + 1..], sep);
    }
  }

  lemma {:induction false} SplitJoin(ts: seq<string>, sep: char)
    requires |ts| >= 1
    requires AllFree(ts, sep)
    ensures Split(Join(ts, sep), sep) == ts
  {
    assert ts[0] in ts;
    if |ts| == 1 {
      IndexOfAbsent(ts[0], sep);
    } else {
      var rest := Join(ts[1..], sep);
      var s := Join(ts, sep);
      assert s == ts[0] + [sep] + rest;
      IndexOfAppend(ts[0], sep, rest);
      SplitJoin(ts[1..], sep);
      assert ts == [ts[0]] + ts[1..];
    }
  }

  lemma {:induction false} JoinFree(ts: seq<string>, sep: char, c: char)
    requires c != sep
    requires AllFree(ts, c)
    ensures c !in Join(ts, sep)
  {
    if |ts| == 1 {
      assert ts[0] in ts;
    } else if |ts| > 1 {
      assert ts[0] in ts;
      JoinFree(ts[1..], sep, c);
    }
  }

  // Substrings

  predicate OccursAt(text: string, pat: string, i: nat) {
    i + |pat| <= |text| && text[i..i + |pat|] == pat
  }

  ghost predicate Contains(text: string, pat: string) {
    exists i: nat :: OccursAt(text, pat, i)
  }

  /** `text.find(pat, 0) != npos` as a test. */
  predicate Shows(text: string, pat: string) {
    exists i | 0 <= i <= |text| :: OccursAt(text, pat, i)
  }

  lemma ShowsContained(text: string, pat: string)
    ensures Shows(text, pat) <==> Contains(text, pat)
  {
    if Contains(text, pat) {
      var i: nat :| OccursAt(text, pat, i);
      assert 0 <= i <= |text|;
    }
  }

  /** `text.find(pat, 0)`: the first occurrence; what it means is `FindFirst`. */
  function Find(text: string, pat: string): Option<nat> {
    if |pat| > |text| then None
    else if text[..|pat|] == pat then Some(0)
    else
      match Find(text[1..], pat)
      case None => None
      case Some(i) => Some(i + 1)
  }

  lemma OccursInTail(text: string, pat: string, i: nat)
    requires text != "" && i > 0
    ensures OccursAt(text, pat, i) <==> OccursAt(text[1..], pat, i - 1)
  {
    if i + |pat| <= |text| {
      assert text[i..i + |pat|] == text[1..][i - 1..i - 1 + |pat|];
    }
  }

  lemma {:induction false} FindFirst(text: string, pat: string)
    ensures var r := Find(text, pat);
      && (r.None? <==> !Contains(text, pat))
      && (r.Some? ==> OccursAt(text, pat, r.value) && forall i: nat | i < r.value :: !OccursAt(text, pat, i))
  {
    if |pat| <= |text| && text[..|pat|] == pat {
      assert OccursAt(text, pat, 0);
    } else if |pat| <= |text| {
      FindFirst(text[1..], pat);
      forall i: nat | OccursAt(text, pat, i) ensures i > 0 && OccursAt(text[1..], pat, i - 1) {
        OccursInTail(text, pat, i);
      }
      if Find(text[1..], pat).Some? {
        OccursInTail(text, pat, Find(text[1..], pat).value + 1);
      }
    }
  }

  // Decimal text

  predicate IsDigit(c: char) {
    '0' <= c <= '9'
  }

  function Digit(d: nat): char
    requires d < 10
  {
    '0' + d as char
  }

  function DigitValue(c: char): (d: nat)
    requires IsDigit(c)
    ensures d < 10
  {
    (c - '0') as nat
  }

  /** Decimal text of a natural number, as `ostream << n` prints it. */
  function Dec(n: nat): (s: string)
    ensures |s| >= 1
  {
    if n < 10 then [Digit(n)] else Dec(n / 10) + [Digit(n % 10)]
  }

  function Power10(k: nat): (p: nat)
    ensures p > 0
  {
    if k == 0 then 1 else 10 * Power10(k - 1)
  }

  /** The digit for the k-th power of ten stands k places from the right, and there is no leading zero. */
  lemma {:induction false} DecPlaces(n: nat, k: nat)
    ensures var s := Dec(n);
      && (k < |s| ==> s[|s| - 1 - k] as int == 48 + (n / Power10(k)) % 10)
      && (n > 0 ==> s[0] as int > 48)
      && Power10(|s|) > n
  {
    if n >= 10 {
      DecPlaces(n / 10, if k > 0 then k - 1 else 0);
      if k > 0 {
        DivideTwice(n, Power10(k - 1));
      }
    }
  }

  lemma DivideTwice(n: nat, p: nat)
    requires p > 0
    ensures n / (10 * p) == (n / 10) / p
  {
    var q := (n / 10) / p;
    var r := (n / 10) % p;
    assert n == 10 * (q * p + r) + n % 10;
    assert 0 <= 10 * r + n % 10 < 10 * p;
    assert n == q * (10 * p) + (10 * r + n % 10);
    QuotientIs(n, 10 * p, q, 10 * r + n % 10);
  }

  lemma QuotientIs(n: nat, d: nat, q: nat, r: nat)
    requires n == q * d + r && r < d
    ensures n / d == q
  {
    assert n / d * d + n % d == n;
    Scaled(n / d, q + 1, d);
    Scaled(q, n / d + 1, d);
  }

  lemma Scaled(a: nat, b: nat, d: nat)
    ensures a >= b ==> a * d >= b * d
  {
    assert a >= b ==> (a - b) * d >= 0;
  }

  predicate Digits(s: string) {
    forall c | c in s :: IsDigit(c)
  }

  lemma {:induction false} DecDigits(n: nat)
    ensures Digits(Dec(n))
  {
    if n >= 10 {
      DecDigits(n / 10);
    }
  }

  function DecInt(n: int): string {
    if n < 0 then "-" + Dec(-n) else Dec(n)
  }

  predicate IsSpace(c: char) {
    c == ' ' || '\t' <= c <= '\r'
  }

  /** `atoi`: leading white space, an optional sign, then digits up to the first other
      character. Overflow is undefined in C and not modelled. */
  function Atoi(s: string): int {
    if s == "" then 0
    else if IsSpace(s[0]) then Atoi(s[1..])
    else if s[0] == '-' then 0 - DigitsValue(s[1..], 0)
    else if s[0] == '+' then DigitsValue(s[1..], 0)
    else DigitsValue(s, 0)
  }

  function DigitsValue(s: string, acc: nat): nat {
    if s == "" || !IsDigit(s[0]) then acc
    else DigitsValue(s[1..], acc * 10 + DigitValue(s[0]))
  }

  lemma DigitsOfDec(n: nat, rest: string)
    requires rest == "" || !IsDigit(rest[0])
    ensures DigitsValue(Dec(n) + rest, 0) == n
  {
    DecDigits(n);
    DigitsAppend(Dec(n), rest, 0);
    DecValue(n);
  }

  function ValueOf(s: string, acc: nat): nat
    requires Digits(s)
  {
    if s == "" then acc else
      assert s[0] in s;
      ValueOf(s[1..], acc * 10 + DigitValue(s[0]))
  }

  lemma {:induction false} DigitsAppend(ds: string, rest: string, acc: nat)
    requires Digits(ds)
    requires rest == "" || !IsDigit(rest[0])
    ensures DigitsValue(ds + rest, acc) == ValueOf(ds, acc)
  {
    if ds == "" {
      assert ds + rest == rest;
    } else {
      assert ds[0] in ds;
      assert (ds + rest)[1..] == ds[1..] + rest;
      DigitsAppend(ds[1..], rest, acc * 10 + DigitValue(ds[0]));
    }
  }

  lemma {:induction false} ValueSnoc(ds: string, d: char, acc: nat)
    requires Digits(ds)
    requires IsDigit(d)
    ensures Digits(ds + [d])
    ensures ValueOf(ds + [d], acc) == ValueOf(ds, acc) * 10 + DigitValue(d)
  {
    if ds == "" {
      assert ds + [d] == [d];
      assert [d][1..] == "";
      assert ValueOf([d][1..], acc * 10 + DigitValue(d)) == acc * 10 + DigitValue(d);
    } else {
      assert ds[0] in ds;
      assert (ds + [d])[1..] == ds[1..] + [d];
      ValueSnoc(ds[1..], d, acc * 10 + DigitValue(ds[0]));
    }
  }

  lemma {:induction false} DecValue(n: nat)
    ensures Digits(Dec(n)) && ValueOf(Dec(n), 0) == n
  {
    DecDigits(n);
    if n < 10 {
      var s := Dec(n);
      assert s == [Digit(n)] && s[1..] == "";
      assert ValueOf(s[1..], DigitValue(s[0])) == n;
    } else {
      DecDigits(n / 10);
      DecValue(n / 10);
      ValueSnoc(Dec(n / 10), Digit(n % 10), 0);
    }
  }

  /** `atoi` of an optionally signed digit string reads all of it. */
  lemma AtoiDigits(ds: string, rest: string)
    requires ds != "" && Digits(ds)
    ensures Atoi(ds + rest) == DigitsValue(ds + rest, 0)
    ensures Atoi("-" + ds + rest) == 0 - DigitsValue(ds + rest, 0)
  {
    assert (ds + rest)[0] in ds;
    assert ("-" + ds + rest)[1..] == ds + rest;
  }

  /** `atoi` recovers a printed integer, whatever non-digit text follows it. */
  lemma AtoiOfDec(n: int, rest: string)
    requires rest == "" || !IsDigit(rest[0])
    ensures Atoi(DecInt(n) + rest) == n
  {
    var m: nat := if n < 0 then -n else n;
    DecDigits(m);
    AtoiDigits(Dec(m), rest);
    DigitsOfDec(m, rest);
  }

  /** A number may have white space and a plus sign before it. */
  lemma {:induction false} AtoiOfSpaced(spaces: string, plus: bool, n: nat, rest: string)
    requires (forall c | c in spaces :: c == ' ' || '\t' <= c <= '\r') && (rest == "" || !IsDigit(rest[0]))
    ensures Atoi(spaces + ((if plus then "+" else "") + Dec(n) + rest)) == n
  {
    var number := (if plus then "+" else "") + Dec(n) + rest;
    if spaces == "" {
      AtoiOfDec(n, rest);
      DigitsOfDec(n, rest);
      assert number == if plus then "+" + (Dec(n) + rest) else Dec(n) + rest;
      assert ("+" + (Dec(n) + rest))[1..] == Dec(n) + rest;
      assert spaces + number == number;
    } else {
      assert forall c | c in spaces[1..] :: c in spaces;
      AtoiOfSpaced(spaces[1..], plus, n, rest);
      assert (spaces + number)[1..] == spaces[1..] + number;
      assert spaces[0] in spaces;
    }
  }

  // Letter case, in the C locale

  function UpperChar(c: char): char {
    if 'a' <= c <= 'z' then c - 'a' + 'A' else c
  }

  /** `upper(s, 0)`. */
  function Upper(s: string): (r: string)
    ensures |r| == |s|
  {
    if s == "" then "" else [UpperChar(s[0])] + Upper(s[1..])
  }

  /** Only the 26 letters change, each to its capital, 32 places below. */
  lemma {:induction false} UpperLetters(s: string, i: nat)
    requires i < |s|
    ensures Upper(s)[i] as int == (s[i] as int) - if 97 <= s[i] as int <= 122 then 32 else 0
  {
    if i > 0 {
      UpperLetters(s[1..], i - 1);
    }
  }
}
