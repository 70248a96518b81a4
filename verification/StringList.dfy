/** The comma lists of src/stringlist.cc: admins, FXP users, TLS exclusions, entries. */
module StringLists {
  import opened Strings

  // Specification of the list updates

  predicate Distinct<T(==)>(l: seq<T>) {
    forall i, j | 0 <= i < j < |l| :: l[i] != l[j]
  }

  lemma DistinctCut<T>(l: seq<T>, k: nat)
    requires k < |l| && Distinct(l)
    ensures Distinct(l[..k] + l[k + 1..])
  {
    var r := l[..k] + l[k + 1..];
    forall i, j | 0 <= i < j < |r| ensures r[i] != r[j] {
      var (i', j') := (if i < k then i else i + 1, if j < k then j else j + 1);
      assert r[i] == l[i'] && r[j] == l[j'];
    }
  }

  function Elements<T>(l: seq<T>): set<T> {
    set x | x in l
  }

  function Added(l: seq<string>, s: string): seq<string> {
    if s in l then l else l + [s]
  }

  /** `l` without the first entry equal to `s`. */
  function Deleted(l: seq<string>, s: string): seq<string> {
    if l == [] then [] else if l[0] == s then l[1..] else [l[0]] + Deleted(l[1..], s)
  }

  function AddAll(l: seq<string>, ts: seq<string>): seq<string>
    decreases |ts|
  {
    if ts == [] then l else AddAll(Added(l, ts[0]), ts[1..])
  }

  function DeleteAll(l: seq<string>, ts: seq<string>): seq<string>
    decreases |ts|
  {
    if ts == [] then l else DeleteAll(Deleted(l, ts[0]), ts[1..])
  }

  /** What `ParseString` cuts its argument into: nothing at all for the empty string. */
  function Tokens(s: string): seq<string> {
    if s == "" then [] else Split(s, ',')
  }

  function Inserted(l: seq<string>, s: string): seq<string> {
    AddAll(l, Tokens(s))
  }

  function Removed(l: seq<string>, s: string): seq<string> {
    DeleteAll(l, Tokens(s))
  }

  function Without(l: seq<string>, ts: seq<string>): seq<string> {
    if l == [] then []
    else (if l[0] in ts then [] else [l[0]]) + Without(l[1..], ts)
  }

  class StringList {
    var List: seq<string>

    constructor ()
      ensures List == []
    {
      List := [];
    }

    method IsInList(s: string) returns (r: bool)
      ensures r <==> s in List
    {
      for i := 0 to |List|
        invariant forall j | 0 <= j < i :: List[j] != s
      {
        if List[i] == s {
          return true;
        }
      }
      return false;
    }

    method Ins(s: string)
      modifies this
      ensures List == Added(old(List), s)
    {
      var known := IsInList(s);
      if !known {
        List := List + [s];
      }
    }

    method Del(s: string)
      modifies this
      ensures List == Deleted(old(List), s)
    {
      var it := 0;
      while it < |List|
        invariant 0 <= it <= |List| && List == old(List)
        invariant s !in List[..it]
      {
        if List[it] == s {
          DeletedAt(List, s, it);
          List := List[..it] + List[it + 1..];
          return;
        }
        it := it + 1;
      }
      DeletedAbsent(List, s);
    }

    method Insert(s: string)
      modifies this
      ensures List == Inserted(old(List), s)
    {
      ParseString(s, 1);
    }

    method Remove(s: string)
      modifies this
      ensures List == Removed(old(List), s)
    {
      ParseString(s, 0);
    }

    method ParseString(s: string, mode: int)
      modifies this
      ensures mode == 0 ==> List == Removed(old(List), s)
      ensures mode == 1 ==> List == Inserted(old(List), s)
      ensures mode != 0 && mode != 1 ==> List == old(List)
    {
      if s == "" {
        return;
      }
      var rest := s + ",";
      var pos := IndexOf(rest, ',');
      SplitComma(s);
      IndexOfFirst(rest, ',');
      while pos != |rest|
        invariant pos == IndexOf(rest, ',') && (',' in rest <==> pos < |rest|)
        invariant rest != "" ==> rest[|rest| - 1] == ','
        invariant mode == 0 ==> DeleteAll(List, Closed(rest)) == Removed(old(List), s)
        invariant mode == 1 ==> AddAll(List, Closed(rest)) == Inserted(old(List), s)
        invariant mode != 0 && mode != 1 ==> List == old(List)
        decreases |rest|
      {
        var tmp := rest[..pos];
        assert Closed(rest) == [tmp] + Closed(rest[pos + 1..]);
        if mode == 0 {
          Del(tmp);
        } else if mode == 1 {
          Ins(tmp);
        }
        rest := rest[pos + 1..];
        pos := IndexOf(rest, ',');
        IndexOfFirst(rest, ',');
      }
      assert rest == "";
    }

    method GetList() returns (r: string)
      ensures r == Join(List, ',')
    {
      r := "";
      for i := 0 to |List|
        invariant r == Join(List[..i], ',') + (if 0 < i < |List| then "," else "")
      {
        JoinSnoc(List[..i], List[i], ',');
        assert List[..i + 1] == List[..i] + [List[i]];
        r := r + List[i];
        if i + 1 < |List| {
          r := r + ",";
        }
      }
      assert List[..|List|] == List;
    }
  }

  // The loop of ParseString

  /** The tokens of a text in which every token is followed by a comma. */
  function Closed(s: string): seq<string>
    decreases |s|
  {
    var i := IndexOf(s, ',');
    if i == |s| then [] else [s[..i]] + Closed(s[i + 1..])
  }

  lemma {:induction false} SplitComma(s: string)
    ensures Closed(s + ",") == Split(s, ',')
    decreases |s|
  {
    var i := IndexOf(s, ',');
    IndexOfFirst(s, ',');
    var t := s + ",";
    if i == |s| {
      assert t == s + [','] + "";
      IndexOfAppend(s, ',', "");
    } else {
      var tail := s[i + 1..] + ",";
      assert t == s[..i] + [','] + tail;
      IndexOfAppend(s[..i], ',', tail);
      SplitComma(s[i + 1..]);
    }
  }

  lemma {:induction false} DeletedAt(l: seq<string>, s: string, k: nat)
    requires k < |l| && l[k] == s && s !in l[..k]
    ensures Deleted(l, s) == l[..k] + l[k + 1..]
  {
    if k > 0 {
      assert l[0] == l[..k][0];
      assert l[1..][..k - 1] == l[1..k] == l[..k][1..];
      assert forall x | x in l[1..k] :: x in l[..k];
      DeletedAt(l[1..], s, k - 1);
      assert l[..k] == [l[0]] + l[1..k];
    }
  }

  lemma {:induction false} DeletedAbsent(l: seq<string>, s: string)
    requires s !in l
    ensures Deleted(l, s) == l
  {
    if l != [] {
      DeletedAbsent(l[1..], s);
    }
  }

  lemma {:induction false} JoinSnoc(ts: seq<string>, t: string, sep: char)
    ensures Join(ts + [t], sep) == (if ts == [] then t else Join(ts, sep) + [sep] + t)
  {
    if |ts| == 0 {
      assert ts + [t] == [t];
    } else {
      assert (ts + [t])[1..] == ts[1..] + [t];
      JoinSnoc(ts[1..], t, sep);
    }
  }

  /** Whatever the list is like, an insertion takes nothing away. */
  lemma {:induction false} InsertKeepsMembers(l: seq<string>, ts: seq<string>, x: string)
    requires x in l
    ensures x in AddAll(l, ts)
    decreases |ts|
  {
    if ts != [] {
      InsertKeepsMembers(Added(l, ts[0]), ts[1..], x);
    }
  }

  // Insertion adds exactly the missing tokens, removal takes exactly the given ones

  lemma {:induction false} InsertIsUnion(l: seq<string>, ts: seq<string>)
    requires Distinct(l)
    ensures Distinct(AddAll(l, ts))
    ensures Elements(AddAll(l, ts)) == Elements(l) + Elements(ts)
    ensures l <= AddAll(l, ts)
    decreases |ts|
  {
    if ts != [] {
      var l' := Added(l, ts[0]);
      assert forall x :: x in l' <==> x in l || x == ts[0];
      InsertIsUnion(l', ts[1..]);
      assert ts == [ts[0]] + ts[1..];
      assert Elements(ts) == {ts[0]} + Elements(ts[1..]);
      assert Elements(l') == Elements(l) + {ts[0]};
    }
  }

  lemma {:induction false} DeletedDistinct(l: seq<string>, s: string)
    requires Distinct(l)
    ensures Deleted(l, s) == Without(l, [s])
    ensures Distinct(Deleted(l, s))
    ensures forall x :: x in Deleted(l, s) <==> x in l && x != s
  {
    if l != [] {
      DeletedDistinct(l[1..], s);
      assert forall x :: x in l <==> x == l[0] || x in l[1..];
      assert l[0] !in l[1..];
      if l[0] == s {
        DeletedAbsent(l[1..], s);
        assert Without(l, [s]) == Without(l[1..], [s]);
      }
    }
  }

  lemma {:induction false} WithoutTwice(l: seq<string>, s: string, ts: seq<string>)
    ensures Without(Without(l, [s]), ts) == Without(l, [s] + ts)
  {
    if l != [] {
      WithoutTwice(l[1..], s, ts);
      var rest := Without(l[1..], [s]);
      if l[0] != s {
        assert Without(l, [s]) == [l[0]] + rest;
        assert ([l[0]] + rest)[1..] == rest;
      } else {
        assert Without(l, [s]) == rest;
      }
    }
  }

  lemma {:induction false} WithoutElements(l: seq<string>, ts: seq<string>)
    ensures forall x :: x in Without(l, ts) <==> x in l && x !in ts
  {
    if l != [] {
      WithoutElements(l[1..], ts);
      assert forall x :: x in l <==> x == l[0] || x in l[1..];
    }
  }

  lemma {:induction false} WithoutNothing(l: seq<string>)
    ensures Without(l, []) == l
  {
    if l != [] {
      WithoutNothing(l[1..]);
    }
  }

  /** Removal keeps the order of what stays and leaves exactly the set difference. */
  lemma {:induction false} RemoveIsDifference(l: seq<string>, ts: seq<string>)
    requires Distinct(l)
    ensures DeleteAll(l, ts) == Without(l, ts)
    ensures Distinct(DeleteAll(l, ts))
    ensures Elements(DeleteAll(l, ts)) == Elements(l) - Elements(ts)
    decreases |ts|
  {
    if ts == [] {
      WithoutNothing(l);
    } else {
      DeletedDistinct(l, ts[0]);
      RemoveIsDifference(Deleted(l, ts[0]), ts[1..]);
      WithoutTwice(l, ts[0], ts[1..]);
      assert ts == [ts[0]] + ts[1..];
    }
    WithoutElements(l, ts);
  }

  // Every history of a list

  datatype Edit = Insertion(s: string) | Removal(s: string)

  function Apply(l: seq<string>, e: Edit): seq<string> {
    match e
    case Insertion(s) => Inserted(l, s)
    case Removal(s) => Removed(l, s)
  }

  function History(l: seq<string>, es: seq<Edit>): seq<string>
    decreases |es|
  {
    if es == [] then l else History(Apply(l, es[0]), es[1..])
  }

  /** The set a history denotes: unions and differences of the tokens, in order. */
  function HistorySet(known: set<string>, es: seq<Edit>): set<string>
    decreases |es|
  {
    if es == [] then known
    else
      var ts := Elements(Tokens(es[0].s));
      HistorySet(if es[0].Insertion? then known + ts else known - ts, es[1..])
  }

  lemma TokensCommaFree(s: string)
    ensures AllFree(Tokens(s), ',')
  {
    if s != "" {
      SplitPieces(s, ',');
    }
  }

  lemma {:induction false} HistoryKeepsLists(l: seq<string>, es: seq<Edit>)
    requires Distinct(l) && AllFree(l, ',')
    ensures Distinct(History(l, es)) && AllFree(History(l, es), ',')
    ensures Elements(History(l, es)) == HistorySet(Elements(l), es)
    decreases |es|
  {
    if es != [] {
      var ts := Tokens(es[0].s);
      var l' := Apply(l, es[0]);
      TokensCommaFree(es[0].s);
      InsertIsUnion(l, ts);
      RemoveIsDifference(l, ts);
      assert forall x :: x in l' <==> x in Elements(l');
      assert forall x :: x in ts <==> x in Elements(ts);
      assert forall x | x in l' :: x in Elements(l) + Elements(ts);
      HistoryKeepsLists(l', es[1..]);
    }
  }

  lemma {:induction false} AddAllFresh(l: seq<string>, ts: seq<string>)
    requires Distinct(l + ts)
    ensures AddAll(l, ts) == l + ts
    decreases |ts|
  {
    if ts == [] {
      assert l + ts == l;
    } else {
      assert (l + ts)[|l|] == ts[0];
      assert forall i | 0 <= i < |l| :: (l + ts)[i] == l[i];
      assert l + [ts[0]] + ts[1..] == l + ts;
      AddAllFresh(l + [ts[0]], ts[1..]);
      assert Added(l, ts[0]) == l + [ts[0]];
    }
  }

  /** Printing a list and inserting the text into an empty list restores it, for every list
      that edits can build, except the list that holds just the empty string. */
  lemma PrintParse(es: seq<Edit>)
    ensures var l := History([], es);
      Inserted([], Join(l, ',')) == l <==> l != [""]
  {
    HistoryKeepsLists([], es);
    var l := History([], es);
    if l == [] {
      assert Join(l, ',') == "";
    } else if l == [""] {
      assert Join(l, ',') == "";
    } else {
      SplitJoin(l, ',');
      assert Split("", ',') == [""] by {
        IndexOfAbsent("", ',');
      }
      AddAllFresh([], l);
      assert [] + l == l;
    }
  }
}
