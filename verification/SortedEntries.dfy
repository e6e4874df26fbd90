/** Keyed entries, ordered by the code points of their keys: sorting, and why the sorted order is unique. */
module SortedEntries {

  datatype Entry<T> = Entry(key: string, val: T)

  /** Lexicographic order on code points, as Python compares str. */
  predicate Less(a: string, b: string) {
    b != [] && (a == [] || a[0] < b[0] || (a[0] == b[0] && Less(a[1..], b[1..])))
  }

  /** The order as Python documents it: a proper prefix comes first, else the first code point that differs decides. */
  ghost predicate CodePointBefore(a: string, b: string) {
    a < b || exists k: nat :: DifferFirst(a, b, k) && a[k] as int < b[k] as int
  }

  predicate DifferFirst(a: string, b: string, k: nat) {
    k < |a| && k < |b| && a[..k] == b[..k] && a[k] != b[k]
  }

  lemma {:induction false} LessIsCodePointOrder(a: string, b: string)
    ensures Less(a, b) <==> CodePointBefore(a, b)
  {
    if a == [] || b == [] {
    } else if a[0] != b[0] {
      assert DifferFirst(a, b, 0);
    } else {
      LessIsCodePointOrder(a[1..], b[1..]);
      assert a == [a[0]] + a[1..] && b == [b[0]] + b[1..];
      if CodePointBefore(a[1..], b[1..]) && !(a[1..] < b[1..]) {
        var k: nat :| DifferFirst(a[1..], b[1..], k) && a[1..][k] as int < b[1..][k] as int;
        assert a[..k + 1] == [a[0]] + a[1..][..k] && b[..k + 1] == [b[0]] + b[1..][..k];
        assert DifferFirst(a, b, k + 1);
      }
      if CodePointBefore(a, b) && !(a < b) {
        var k: nat :| DifferFirst(a, b, k) && a[k] as int < b[k] as int;
        assert a[1..][..k - 1] == a[..k][1..] && b[1..][..k - 1] == b[..k][1..];
        assert DifferFirst(a[1..], b[1..], k - 1);
      }
    }
  }

  lemma {:induction false} LessTotal(a: string, b: string)
    ensures Less(a, b) || a == b || Less(b, a)
    ensures !(Less(a, b) && Less(b, a)) && !(a == b && Less(a, b))
  {
    if a != [] && b != [] && a[0] == b[0] {
      LessTotal(a[1..], b[1..]);
      assert a == [a[0]] + a[1..] && b == [b[0]] + b[1..];
    }
  }

  lemma {:induction false} LessTransitive(a: string, b: string, c: string)
    requires Less(a, b) && Less(b, c)
    ensures Less(a, c)
  {
    if a != [] && a[0] == b[0] == c[0] {
      LessTransitive(a[1..], b[1..], c[1..]);
    }
  }

  predicate Distinct<T>(es: seq<Entry<T>>) {
    forall i, j :: 0 <= i < j < |es| ==> es[i].key != es[j].key
  }

  predicate Increasing<T>(es: seq<Entry<T>>) {
    forall i, j :: 0 <= i < j < |es| ==> Less(es[i].key, es[j].key)
  }

  /** The dictionary a list of entries stands for; a later entry replaces an earlier one. */
  function AsMap<T>(es: seq<Entry<T>>): (m: map<string, T>)
  {
    if es == [] then map[] else AsMap(es[..|es| - 1])[es[|es| - 1].key := es[|es| - 1].val]
  }

  lemma {:induction false} AsMapEntries<T>(es: seq<Entry<T>>)
    requires Distinct(es)
    ensures forall i :: 0 <= i < |es| ==> es[i].key in AsMap(es) && AsMap(es)[es[i].key] == es[i].val
    ensures forall k :: k in AsMap(es) ==> exists i :: 0 <= i < |es| && es[i].key == k
  {
    if es == [] {
    } else {
      AsMapEntries(es[..|es| - 1]);
      assert forall i :: 0 <= i < |es| - 1 ==> es[..|es| - 1][i] == es[i];
    }
  }

  function Insert<T>(e: Entry<T>, es: seq<Entry<T>>): (r: seq<Entry<T>>)
    ensures |r| == |es| + 1
  {
    if es == [] || Less(e.key, es[0].key) then [e] + es else [es[0]] + Insert(e, es[1..])
  }

  function Sort<T>(es: seq<Entry<T>>): (r: seq<Entry<T>>)
    ensures |r| == |es|
  {
    if es == [] then [] else Insert(es[0], Sort(es[1..]))
  }

  lemma {:induction false} InsertKeeps<T>(e: Entry<T>, es: seq<Entry<T>>)
    ensures multiset(Insert(e, es)) == multiset{e} + multiset(es)
  {
    if es == [] || Less(e.key, es[0].key) {
    } else {
      InsertKeeps(e, es[1..]);
      assert es == [es[0]] + es[1..];
    }
  }

  lemma {:induction false} SortKeeps<T>(es: seq<Entry<T>>)
    ensures multiset(Sort(es)) == multiset(es)
  {
    if es == [] {
    } else {
      SortKeeps(es[1..]);
      InsertKeeps(es[0], Sort(es[1..]));
      assert es == [es[0]] + es[1..];
    }
  }

  lemma {:induction false} InsertIncreasing<T>(e: Entry<T>, es: seq<Entry<T>>)
    requires Increasing(es) && forall i :: 0 <= i < |es| ==> es[i].key != e.key
    ensures Increasing(Insert(e, es))
  {
    if es == [] {
    } else {
      LessTotal(e.key, es[0].key);
      if Less(e.key, es[0].key) {
        forall j | 0 < j < |es| ensures Less(e.key, es[j].key) {
          LessTransitive(e.key, es[0].key, es[j].key);
        }
      } else {
        var r := Insert(e, es[1..]);
        InsertIncreasing(e, es[1..]);
        InsertKeeps(e, es[1..]);
        forall j | 0 <= j < |r| ensures Less(es[0].key, r[j].key) {
          assert r[j] in multiset(r);
          assert r[j] == e || r[j] in es[1..];
        }
      }
    }
  }

  lemma {:induction false} SortIncreasing<T>(es: seq<Entry<T>>)
    requires Distinct(es)
    ensures Increasing(Sort(es))
  {
    if es == [] {
    } else {
      SortIncreasing(es[1..]);
      SortKeeps(es[1..]);
      forall i | 0 <= i < |es| - 1 ensures Sort(es[1..])[i].key != es[0].key {
        assert Sort(es[1..])[i] in multiset(Sort(es[1..]));
        assert Sort(es[1..])[i] in es[1..];
      }
      InsertIncreasing(es[0], Sort(es[1..]));
    }
  }

  lemma IncreasingDistinct<T>(es: seq<Entry<T>>)
    requires Increasing(es)
    ensures Distinct(es)
  {
    forall i, j | 0 <= i < j < |es| ensures es[i].key != es[j].key {
      LessTotal(es[i].key, es[j].key);
    }
  }

  /** Same entries, in any order. */
  predicate SameEntries<T(==)>(a: seq<Entry<T>>, b: seq<Entry<T>>) {
    (forall i :: 0 <= i < |a| ==> a[i] in b) && (forall i :: 0 <= i < |b| ==> b[i] in a)
  }

  lemma {:induction false} IncreasingUnique<T>(a: seq<Entry<T>>, b: seq<Entry<T>>)
    requires Increasing(a) && Increasing(b) && SameEntries(a, b)
    ensures a == b
  {
    assert a != [] ==> a[0] in b;
    assert b != [] ==> b[0] in a;
    if a == [] {
    } else {
      LessTotal(a[0].key, b[0].key);
      assert a[0] == b[0];
      IncreasingDistinct(a);
      IncreasingDistinct(b);
      forall e | e in a[1..] ensures e in b[1..] { assert e in a; }
      forall e | e in b[1..] ensures e in a[1..] { assert e in b; }
      IncreasingUnique(a[1..], b[1..]);
      assert a == [a[0]] + a[1..] && b == [b[0]] + b[1..];
    }
  }

  /** Two listings of one dictionary sort to the same list. */
  lemma SortUnique<T>(a: seq<Entry<T>>, b: seq<Entry<T>>)
    requires Distinct(a) && Distinct(b)
    ensures AsMap(a) == AsMap(b) <==> Sort(a) == Sort(b)
  {
    SortMembers(a);
    SortMembers(b);
    if AsMap(a) == AsMap(b) {
      MapSubset(a, b);
      MapSubset(b, a);
      SortIncreasing(a);
      SortIncreasing(b);
      IncreasingUnique(Sort(a), Sort(b));
    }
    if Sort(a) == Sort(b) {
      EntriesDecideMap(a, b);
    }
  }

  lemma SortMembers<T>(es: seq<Entry<T>>)
    ensures SameEntries(Sort(es), es)
  {
    SortKeeps(es);
    forall i | 0 <= i < |es| ensures Sort(es)[i] in es && es[i] in Sort(es) {
      assert Sort(es)[i] in multiset(Sort(es)) && es[i] in multiset(es);
    }
  }

  lemma MapSubset<T>(a: seq<Entry<T>>, b: seq<Entry<T>>)
    requires Distinct(a) && Distinct(b) && AsMap(a) == AsMap(b)
    ensures forall i :: 0 <= i < |a| ==> a[i] in b
  {
    AsMapEntries(a);
    AsMapEntries(b);
    forall i | 0 <= i < |a| ensures a[i] in b {
      var j :| 0 <= j < |b| && b[j].key == a[i].key;
      assert b[j] == a[i];
    }
  }

  lemma EntriesDecideMap<T>(a: seq<Entry<T>>, b: seq<Entry<T>>)
    requires Distinct(a) && Distinct(b)
    requires SameEntries(a, b)
    ensures AsMap(a) == AsMap(b)
  {
    AsMapEntries(a);
    AsMapEntries(b);
    forall k | k in AsMap(a) ensures k in AsMap(b) && AsMap(b)[k] == AsMap(a)[k] {
      var i :| 0 <= i < |a| && a[i].key == k;
      assert a[i] in b;
    }
    forall k | k in AsMap(b) ensures k in AsMap(a) {
      var i :| 0 <= i < |b| && b[i].key == k;
      assert b[i] in a;
    }
  }

  lemma {:induction false} SameMapSameList<T>(a: seq<Entry<T>>, b: seq<Entry<T>>)
    requires |a| == |b| && Distinct(a) && AsMap(a) == AsMap(b)
    requires forall i :: 0 <= i < |a| ==> a[i].key == b[i].key
    ensures a == b
  {
    assert Distinct(b);
    AsMapEntries(a);
    AsMapEntries(b);
    forall i | 0 <= i < |a| ensures a[i] == b[i] {
      assert AsMap(a)[a[i].key] == a[i].val && AsMap(b)[b[i].key] == b[i].val;
    }
  }

  lemma AsMapSort<T>(es: seq<Entry<T>>)
    requires Distinct(es)
    ensures Distinct(Sort(es)) && AsMap(Sort(es)) == AsMap(es)
  {
    SortIncreasing(es);
    IncreasingDistinct(Sort(es));
    SortMembers(es);
    EntriesDecideMap(Sort(es), es);
  }

  /** `b` lists the same keys as `a`, each with `f` of its value. */
  ghost predicate Mapped<A, B>(f: A -> B, a: seq<Entry<A>>, b: seq<Entry<B>>) {
    |a| == |b| && forall i :: 0 <= i < |a| ==> b[i] == Entry(a[i].key, f(a[i].val))
  }

  lemma {:induction false} InsertMapped<A, B>(f: A -> B, e: Entry<A>, a: seq<Entry<A>>, b: seq<Entry<B>>)
    requires Mapped(f, a, b)
    ensures Mapped(f, Insert(e, a), Insert(Entry(e.key, f(e.val)), b))
  {
    if a == [] || Less(e.key, a[0].key) {
    } else {
      InsertMapped(f, e, a[1..], b[1..]);
    }
  }

  /** Sorting looks at keys only, so it commutes with changing the values. */
  lemma {:induction false} SortMapped<A, B>(f: A -> B, a: seq<Entry<A>>, b: seq<Entry<B>>)
    requires Mapped(f, a, b)
    ensures Mapped(f, Sort(a), Sort(b))
  {
    if a == [] {
    } else {
      SortMapped(f, a[1..], b[1..]);
      InsertMapped(f, a[0], Sort(a[1..]), Sort(b[1..]));
    }
  }
}
