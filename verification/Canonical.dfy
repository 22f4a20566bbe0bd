/**
  Deterministic serialisation of a mapping: sorted keys, compact text, UTF-8.  A mapping is a list of
  members in insertion order with distinct keys.
*/
module Canonical {
  import opened Options
  import opened Octets
  import opened Json
  import Utf8

  /** Order of strings by code points. */
  predicate Before(a: string, b: string)
    decreases |b|
  {
    b != "" && (a == "" || a[0] < b[0] || (a[0] == b[0] && Before(a[1..], b[1..])))
  }

  function Insert(m: Member, sorted: seq<Member>): seq<Member> {
    if sorted == [] || Before(m.key, sorted[0].key) then [m] + sorted
    else [sorted[0]] + Insert(m, sorted[1..])
  }

  function Sort(members: seq<Member>): seq<Member> {
    if members == [] then [] else Insert(members[0], Sort(members[1..]))
  }

  function CanonicalJson(members: seq<Member>): Bytes {
    Utf8.Encode(Render(Obj(Sort(members))))
  }

  predicate DistinctKeys(members: seq<Member>) {
    forall i, j :: 0 <= i < j < |members| ==> members[i].key != members[j].key
  }

  /** The mapping itself: what Python compares when it compares two dictionaries. */
  function Items(members: seq<Member>): set<Member> {
    set i | 0 <= i < |members| :: members[i]
  }

  predicate Ascending(members: seq<Member>) {
    forall i, j :: 0 <= i < j < |members| ==> Before(members[i].key, members[j].key)
  }

  lemma {:induction false} BeforeIsTotal(a: string, b: string)
    ensures a != b ==> Before(a, b) || Before(b, a)
    ensures Before(a, b) ==> !Before(b, a) && a != b
    decreases |b|
  {
    if a != "" && b != "" && a[0] == b[0] {
      BeforeIsTotal(a[1..], b[1..]);
      assert a == [a[0]] + a[1..] && b == [b[0]] + b[1..];
    }
  }

  lemma {:induction false} BeforeIsTransitive(a: string, b: string, c: string)
    requires Before(a, b) && Before(b, c)
    ensures Before(a, c)
    decreases |b|
  {
    if a != "" && a[0] == b[0] && b[0] == c[0] {
      BeforeIsTransitive(a[1..], b[1..], c[1..]);
    }
  }

  lemma {:induction false} ItemsOfCons(m: Member, rest: seq<Member>)
    ensures Items([m] + rest) == {m} + Items(rest)
  {
    var all := [m] + rest;
    forall i | 0 <= i < |rest| ensures rest[i] in Items(all) {
      assert all[i + 1] == rest[i];
    }
    assert all[0] == m;
  }

  /** A member before all others may stand in front of them. */
  lemma {:induction false} AscendingCons(m: Member, rest: seq<Member>)
    requires Ascending(rest) && forall x :: x in Items(rest) ==> Before(m.key, x.key)
    ensures Ascending([m] + rest)
  {
    var all := [m] + rest;
    forall i, j | 0 <= i < j < |all| ensures Before(all[i].key, all[j].key) {
      assert all[j] == rest[j - 1] && rest[j - 1] in Items(rest);
    }
  }

  /** What is before the first member is before all of them. */
  lemma {:induction false} BeforeAll(key: string, sorted: seq<Member>, x: Member)
    requires Ascending(sorted) && sorted != [] && Before(key, sorted[0].key) && x in Items(sorted)
    ensures Before(key, x.key)
  {
    if x != sorted[0] {
      BeforeIsTransitive(key, sorted[0].key, x.key);
    }
  }

  lemma {:induction false} InsertSorts(m: Member, sorted: seq<Member>)
    requires Ascending(sorted) && forall x :: x in Items(sorted) ==> x.key != m.key
    ensures Ascending(Insert(m, sorted)) && Items(Insert(m, sorted)) == Items(sorted) + {m}
  {
    if sorted == [] || Before(m.key, sorted[0].key) {
      forall x | x in Items(sorted) ensures Before(m.key, x.key) {
        BeforeAll(m.key, sorted, x);
      }
      AscendingCons(m, sorted);
      ItemsOfCons(m, sorted);
    } else {
      var first, rest := sorted[0], sorted[1..];
      assert sorted == [first] + rest && first in Items(sorted);
      ItemsOfCons(first, rest);
      InsertSorts(m, rest);
      BeforeIsTotal(m.key, first.key);
      forall x | x in Items(Insert(m, rest)) ensures Before(first.key, x.key) {
        if x != m {
          var i :| 0 <= i < |rest| && rest[i] == x;
          assert sorted[i + 1] == x;
        }
      }
      AscendingCons(first, Insert(m, rest));
      ItemsOfCons(first, Insert(m, rest));
    }
  }

  lemma {:induction false} SortSorts(members: seq<Member>)
    requires DistinctKeys(members)
    ensures Ascending(Sort(members)) && Items(Sort(members)) == Items(members)
  {
    if members != [] {
      var rest := Sort(members[1..]);
      SortSorts(members[1..]);
      InsertSorts(members[0], rest);
      ItemsOfCons(members[0], members[1..]);
      assert members == [members[0]] + members[1..];
    }
  }

  /** An ascending list is determined by its members. */
  lemma {:induction false} AscendingIsUnique(a: seq<Member>, b: seq<Member>)
    requires Ascending(a) && Ascending(b) && Items(a) == Items(b)
    ensures a == b
  {
    EmptyItems(a);
    EmptyItems(b);
    if a != [] {
      FirstIsLeast(a, b[0]);
      FirstIsLeast(b, a[0]);
      BeforeIsTotal(a[0].key, b[0].key);
      assert a[0] == b[0];
      TailItems(a);
      TailItems(b);
      AscendingIsUnique(a[1..], b[1..]);
      assert a == [a[0]] + a[1..] && b == [b[0]] + b[1..];
    }
  }

  lemma EmptyItems(a: seq<Member>)
    ensures Items(a) == {} <==> a == []
  {
    if a != [] {
      assert a[0] in Items(a);
    }
  }

  lemma FirstIsLeast(a: seq<Member>, m: Member)
    requires Ascending(a) && a != [] && m in Items(a)
    ensures m == a[0] || Before(a[0].key, m.key)
  {
  }

  lemma TailItems(a: seq<Member>)
    requires Ascending(a) && a != []
    ensures Items(a[1..]) == Items(a) - {a[0]}
  {
    ItemsOfCons(a[0], a[1..]);
    assert a == [a[0]] + a[1..];
    if a[0] in Items(a[1..]) {
      var i :| 0 <= i < |a[1..]| && a[1..][i] == a[0];
      assert Before(a[0].key, a[i + 1].key);
      BeforeIsTotal(a[0].key, a[0].key);
    }
  }

  /** Two mappings have the same canonical bytes exactly when they are equal, insertion order aside. */
  lemma CanonicalExactly(a: seq<Member>, b: seq<Member>)
    requires DistinctKeys(a) && DistinctKeys(b)
    ensures CanonicalJson(a) == CanonicalJson(b) <==> Items(a) == Items(b)
  {
    SortSorts(a);
    SortSorts(b);
    if Items(a) == Items(b) {
      AscendingIsUnique(Sort(a), Sort(b));
    }
    if CanonicalJson(a) == CanonicalJson(b) {
      Utf8.EncodeInjective(Render(Obj(Sort(a))), Render(Obj(Sort(b))));
      RoundTrip(Obj(Sort(a)));
      RoundTrip(Obj(Sort(b)));
    }
  }

  /** Two mappings built with the same keys in the same places: equal bytes mean equal values. */
  lemma SameShape(a: seq<Member>, b: seq<Member>)
    requires DistinctKeys(a) && DistinctKeys(b)
    requires |a| == |b| && forall i :: 0 <= i < |a| ==> a[i].key == b[i].key
    requires CanonicalJson(a) == CanonicalJson(b)
    ensures a == b
  {
    CanonicalExactly(a, b);
    forall i | 0 <= i < |a| ensures a[i] == b[i] {
      assert a[i] in Items(b);
      var j :| 0 <= j < |b| && b[j] == a[i];
      assert a[i].key == a[j].key;
    }
  }

  /** Reading a document back: UTF-8, then JSON. */
  function ReadDocument(raw: Bytes): Option<Value> {
    match Utf8.Decode(raw)
    case None => None
    case Some(text) => Parse(text)
  }

  lemma ReadWritten(v: Value)
    ensures ReadDocument(Utf8.Encode(Render(v))) == Some(v)
  {
    Utf8.RoundTrip(Render(v));
    RoundTrip(v);
  }

  lemma ReadCanonical(members: seq<Member>)
    ensures ReadDocument(CanonicalJson(members)) == Some(Obj(Sort(members)))
  {
    ReadWritten(Obj(Sort(members)));
  }
}
