/** sort.Strings and sort.Slice: a sorted permutation, which for a total order is unique. */
module Sorting {

  ghost predicate TotalOrder<T(!new)>(le: (T, T) -> bool) {
    && (forall x :: le(x, x))
    && (forall x, y :: le(x, y) || le(y, x))
    && (forall x, y :: le(x, y) && le(y, x) ==> x == y)
    && (forall x, y, z :: le(x, y) && le(y, z) ==> le(x, z))
  }

  ghost predicate Sorted<T>(le: (T, T) -> bool, s: seq<T>) {
    forall i, j | 0 <= i < j < |s| :: le(s[i], s[j])
  }

  function Insert<T>(le: (T, T) -> bool, x: T, s: seq<T>): seq<T> {
    if s == [] then [x]
    else if le(x, s[0]) then [x] + s
    else [s[0]] + Insert(le, x, s[1..])
  }

  function Sort<T>(le: (T, T) -> bool, s: seq<T>): seq<T> {
    if s == [] then [] else Insert(le, s[0], Sort(le, s[1..]))
  }

  lemma {:induction false} InsertSorts<T(!new)>(le: (T, T) -> bool, x: T, s: seq<T>)
    requires TotalOrder(le) && Sorted(le, s)
    ensures Sorted(le, Insert(le, x, s))
    ensures multiset(Insert(le, x, s)) == multiset{x} + multiset(s)
  {
    if s == [] {
    } else if le(x, s[0]) {
    } else {
      InsertSorts(le, x, s[1..]);
      var r := Insert(le, x, s[1..]);
      assert s == [s[0]] + s[1..];
      forall k | 0 <= k < |r| ensures le(s[0], r[k]) {
        assert r[k] in multiset(r);
        assert r[k] == x || r[k] in s[1..];
      }
    }
  }

  lemma {:induction false} SortSorts<T(!new)>(le: (T, T) -> bool, s: seq<T>)
    requires TotalOrder(le)
    ensures Sorted(le, Sort(le, s)) && multiset(Sort(le, s)) == multiset(s)
  {
    if s != [] {
      SortSorts(le, s[1..]);
      InsertSorts(le, s[0], Sort(le, s[1..]));
      assert s == [s[0]] + s[1..];
    }
  }

  lemma SameHead<T(!new)>(le: (T, T) -> bool, s: seq<T>, t: seq<T>)
    requires TotalOrder(le) && Sorted(le, s) && Sorted(le, t) && multiset(s) == multiset(t) && s != []
    ensures t != [] && s[0] == t[0]
  {
    assert |multiset(s)| == |multiset(t)|;
    assert s[0] in multiset(t) && t[0] in multiset(s);
    var j :| 0 <= j < |t| && t[j] == s[0];
    var i :| 0 <= i < |s| && s[i] == t[0];
    assert le(s[0], t[0]) && le(t[0], s[0]);
  }

  lemma TailSorted<T>(le: (T, T) -> bool, s: seq<T>)
    requires Sorted(le, s) && s != []
    ensures Sorted(le, s[1..])
  {
  }

  lemma SameTails<T>(s: seq<T>, t: seq<T>)
    requires s != [] && t != [] && s[0] == t[0] && multiset(s) == multiset(t)
    ensures multiset(s[1..]) == multiset(t[1..])
    ensures s[1..] == t[1..] ==> s == t
  {
    assert s == [s[0]] + s[1..] && t == [t[0]] + t[1..];
    assert multiset(s[1..]) == multiset(s) - multiset{s[0]};
    assert multiset(t[1..]) == multiset(t) - multiset{t[0]};
  }

  lemma {:induction false} SortedUnique<T(!new)>(le: (T, T) -> bool, s: seq<T>, t: seq<T>)
    requires TotalOrder(le) && Sorted(le, s) && Sorted(le, t) && multiset(s) == multiset(t)
    ensures s == t
  {
    if s == [] {
      assert |multiset(t)| == 0;
    } else {
      SameHead(le, s, t);
      TailSorted(le, s);
      TailSorted(le, t);
      hide Sorted, TotalOrder;
      SameTails(s, t);
      SortedUnique(le, s[1..], t[1..]);
    }
  }

  /** The input's order does not show in the output. */
  lemma SortIgnoresOrder<T(!new)>(le: (T, T) -> bool, s: seq<T>, t: seq<T>)
    requires TotalOrder(le) && multiset(s) == multiset(t)
    ensures Sort(le, s) == Sort(le, t)
  {
    SortSorts(le, s);
    SortSorts(le, t);
    SortedUnique(le, Sort(le, s), Sort(le, t));
  }

  /** Sorting neither adds nor drops an element. */
  lemma SortKeepsElements<T(!new)>(le: (T, T) -> bool, s: seq<T>)
    requires TotalOrder(le)
    ensures |Sort(le, s)| == |s|
    ensures forall x :: x in Sort(le, s) <==> x in s
  {
    SortSorts(le, s);
    assert |multiset(s)| == |multiset(Sort(le, s))|;
    assert forall x :: x in Sort(le, s) <==> x in multiset(Sort(le, s));
    assert forall x :: x in s <==> x in multiset(s);
  }

  // ----- enumerations: a Go map's keys, in whatever order the iteration yields them -----

  /** `s` lists `keys`, each once. */
  ghost predicate Enumerates<T>(s: seq<T>, keys: set<T>) {
    && (forall k | 0 <= k < |s| :: s[k] in keys)
    && (forall x | x in keys :: x in s)
    && (forall i, j | 0 <= i < j < |s| :: s[i] != s[j])
  }

  /** Ranging over a map: some order of its keys, each once. */
  method Range<T(==)>(keys: set<T>) returns (s: seq<T>)
    ensures Enumerates(s, keys)
  {
    s := [];
    var todo := keys;
    while todo != {}
      invariant todo <= keys
      invariant Enumerates(s, keys - todo)
      decreases |todo|
    {
      var x :| x in todo;
      s := s + [x];
      todo := todo - {x};
    }
    assert keys - todo == keys;
  }

  /** Some order of a set's elements: what ranging over a Go map yields. */
  ghost function Listing<T>(keys: set<T>): (s: seq<T>)
    ensures Enumerates(s, keys)
  {
    ListingExists(keys);
    var s :| Enumerates(s, keys);
    s
  }

  lemma {:induction false} ListingExists<T>(keys: set<T>)
    ensures exists s: seq<T> :: Enumerates(s, keys)
  {
    if keys == {} {
      assert Enumerates<T>([], keys);
    } else {
      var x :| x in keys;
      ListingExists(keys - {x});
      var s: seq<T> :| Enumerates(s, keys - {x});
      assert Enumerates(s + [x], keys) by {
        forall y | y in keys ensures y in s + [x] {
          if y != x { assert y in s; }
        }
      }
    }
  }

  lemma EnumerationTail<T>(s: seq<T>, keys: set<T>)
    requires Enumerates(s, keys) && s != []
    ensures Enumerates(s[1..], keys - {s[0]}) && s[0] in keys
  {
    var rest := keys - {s[0]};
    forall x | x in rest ensures x in s[1..] {
      var k :| 0 <= k < |s| && s[k] == x;
      assert s[1..][k - 1] == x;
    }
  }

  lemma {:induction false} EnumerationCounts<T>(s: seq<T>, keys: set<T>)
    requires Enumerates(s, keys)
    ensures multiset(s) == multiset(keys)
  {
    if s == [] {
      assert keys == {};
    } else {
      EnumerationTail(s, keys);
      hide Enumerates;
      var rest := keys - {s[0]};
      EnumerationCounts(s[1..], rest);
      assert s == [s[0]] + s[1..];
      assert keys == rest + {s[0]};
    }
  }

  lemma EnumerationSize<T>(s: seq<T>, keys: set<T>)
    requires Enumerates(s, keys)
    ensures |s| == |keys|
  {
    EnumerationCounts(s, keys);
    assert |multiset(s)| == |s|;
  }

  /** And back: a sequence whose counts are those of a set lists the set. */
  lemma CountsEnumerate<T(!new)>(s: seq<T>, keys: set<T>)
    requires multiset(s) == multiset(keys)
    ensures Enumerates(s, keys)
  {
    forall x ensures x in s <==> x in keys {
      assert x in s <==> x in multiset(s);
    }
    forall i, j | 0 <= i < j < |s| ensures s[i] != s[j] {
      CountedTwice(s, i, j);
      assert multiset(keys)[s[i]] <= 1;
    }
  }

  lemma CountedTwice<T>(s: seq<T>, i: nat, j: nat)
    requires i < j < |s|
    ensures s[i] == s[j] ==> multiset(s)[s[i]] >= 2
  {
    var a, b := s[..j], s[j..];
    assert s == a + b && s[i] == a[i] && s[j] == b[0];
    assert s[i] in multiset(a) && s[j] in multiset(b);
  }

  /** Sorting the keys of a map gives one result, whatever the iteration order was. */
  lemma RangeThenSort<T(!new)>(le: (T, T) -> bool, s: seq<T>, t: seq<T>, keys: set<T>)
    requires TotalOrder(le) && Enumerates(s, keys) && Enumerates(t, keys)
    ensures Sort(le, s) == Sort(le, t)
    ensures Enumerates(Sort(le, s), keys)
  {
    EnumerationCounts(s, keys);
    EnumerationCounts(t, keys);
    SortIgnoresOrder(le, s, t);
    SortSorts(le, s);
    CountsEnumerate(Sort(le, s), keys);
  }

  // ----- the two orders the program sorts by -----

  predicate IntLe(a: int, b: int) { a <= b }

  /** Byte-wise string comparison. */
  predicate StrLe(a: string, b: string) {
    a == "" || (b != "" && (a[0] < b[0] || (a[0] == b[0] && StrLe(a[1..], b[1..]))))
  }

  /** A text comes first if it is a prefix of the other, or smaller where the two first differ. */
  lemma {:induction false} StrLeMeans(a: string, b: string)
    ensures StrLe(a, b) <==> a <= b || exists k :: 0 <= k < |a| && k < |b| && a[..k] == b[..k] && a[k] < b[k]
  {
    if a != "" && b != "" && a[0] == b[0] {
      StrLeMeans(a[1..], b[1..]);
      assert a == [a[0]] + a[1..] && b == [b[0]] + b[1..];
      if k :| 0 <= k < |a[1..]| && k < |b[1..]| && a[1..][..k] == b[1..][..k] && a[1..][k] < b[1..][k] {
        assert a[..k + 1] == [a[0]] + a[1..][..k] && b[..k + 1] == [b[0]] + b[1..][..k];
      }
      if k :| 0 <= k < |a| && k < |b| && a[..k] == b[..k] && a[k] < b[k] {
        assert k > 0 && a[1..][..k - 1] == a[..k][1..] && b[1..][..k - 1] == b[..k][1..];
      }
    } else if a != "" && b != "" {
      if a[0] < b[0] { assert a[..0] == b[..0]; }
      forall k | 0 <= k < |a| && k < |b| && a[..k] == b[..k] ensures k > 0 ==> a[0] == b[0] {
        SameStart(a, b, k);
      }
    }
  }

  lemma SameStart(a: string, b: string, k: nat)
    requires k <= |a| && k <= |b| && a[..k] == b[..k]
    ensures k > 0 ==> a[0] == b[0]
  {
    if k > 0 { assert a[0] == a[..k][0] && b[0] == b[..k][0]; }
  }

  lemma {:induction false} StrLeReflexive(a: string)
    ensures StrLe(a, a)
  {
    if a != "" { StrLeReflexive(a[1..]); }
  }

  lemma {:induction false} StrLeTotal(a: string, b: string)
    ensures StrLe(a, b) || StrLe(b, a)
  {
    if a != "" && b != "" { StrLeTotal(a[1..], b[1..]); }
  }

  lemma {:induction false} StrLeAntisymmetric(a: string, b: string)
    requires StrLe(a, b) && StrLe(b, a)
    ensures a == b
  {
    if a != "" && b != "" {
      StrLeAntisymmetric(a[1..], b[1..]);
      assert a == [a[0]] + a[1..] && b == [b[0]] + b[1..];
    }
  }

  lemma {:induction false} StrLeTransitive(a: string, b: string, c: string)
    requires StrLe(a, b) && StrLe(b, c)
    ensures StrLe(a, c)
  {
    if a != "" && b != "" && c != "" && a[0] == b[0] == c[0] {
      StrLeTransitive(a[1..], b[1..], c[1..]);
    }
  }

  lemma StringsAreOrdered()
    ensures TotalOrder(StrLe)
  {
    forall x ensures StrLe(x, x) { StrLeReflexive(x); }
    forall x, y ensures StrLe(x, y) || StrLe(y, x) { StrLeTotal(x, y); }
    forall x, y | StrLe(x, y) && StrLe(y, x) ensures x == y { StrLeAntisymmetric(x, y); }
    forall x, y, z | StrLe(x, y) && StrLe(y, z) ensures StrLe(x, z) { StrLeTransitive(x, y, z); }
  }

  lemma IntsAreOrdered()
    ensures TotalOrder(IntLe)
  {
  }

  // ----- counting -----

  lemma {:induction false} SubsetIsSmaller<T>(x: set<T>, y: set<T>)
    requires x <= y
    ensures |x| <= |y|
  {
    if x != {} {
      var e :| e in x;
      SubsetIsSmaller(x - {e}, y - {e});
    }
  }
}
