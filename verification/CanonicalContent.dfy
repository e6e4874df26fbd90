/** What canonical text says: equal content has equal text, and different content has different text. */
module CanonicalContent {
  import opened SortedEntries
  import opened CanonicalJson
  import opened CanonicalParser

  // ---------- the encoder prints the sorted tree

  lemma {:induction false} EncodePrintsNormal(j: Json)
    ensures Encode(j) == Print(Normal(j))
    decreases j, 0
  {
    match j
    case Arr(items) => EncodeItemsPrintsNormal(items);
    case Obj(ms) =>
      EncodeMembersPrintsNormal(ms);
      SortMapped(Print, NormalMembers(ms), EncodeMembers(ms));
      assert PrintMembers(Sort(NormalMembers(ms))) == Sort(EncodeMembers(ms));
    case _ =>
  }

  lemma {:induction false} EncodeItemsPrintsNormal(items: seq<Json>)
    ensures EncodeItems(items) == PrintItems(NormalItems(items))
    decreases items, 1
  {
    if items == [] {
    } else {
      EncodePrintsNormal(items[0]);
      EncodeItemsPrintsNormal(items[1..]);
    }
  }

  lemma {:induction false} EncodeMembersPrintsNormal(ms: seq<Entry<Json>>)
    ensures Mapped(Print, NormalMembers(ms), EncodeMembers(ms))
    decreases ms, 1
  {
    if ms == [] {
    } else {
      EncodePrintsNormal(ms[0].val);
      EncodeMembersPrintsNormal(ms[1..]);
    }
  }

  // ---------- the sorted tree is sorted

  ghost predicate KeysAscend(ms: seq<Entry<Json>>) {
    forall i, k :: 0 <= i < k < |ms| ==> CodePointBefore(ms[i].key, ms[k].key)
  }

  lemma {:induction false} AtNormalItem(items: seq<Json>, path: seq<nat>)
    requires path != [] && At(Normal(Arr(items)), path).Some?
    ensures path[0] < |items| && At(Normal(Arr(items)), path) == At(Normal(items[path[0]]), path[1..])
  {
  }

  lemma {:induction false} AtNormalMember(ms: seq<Entry<Json>>, path: seq<nat>) returns (k: nat)
    requires path != [] && At(Normal(Obj(ms)), path).Some?
    ensures k < |ms| && At(Normal(Obj(ms)), path) == At(Normal(ms[k].val), path[1..])
  {
    var sorted := Sort(NormalMembers(ms));
    SortMembers(NormalMembers(ms));
    assert sorted[path[0]] in NormalMembers(ms);
    k :| 0 <= k < |ms| && NormalMembers(ms)[k] == sorted[path[0]];
  }

  /** At every depth of the tree that is printed, the keys of a dictionary stand in ascending code-point order. */
  lemma {:induction false} KeysAscendAtEveryDepth(j: Json, path: seq<nat>)
    requires WellFormed(j)
    requires At(Normal(j), path).Some? && At(Normal(j), path).value.Obj?
    ensures KeysAscend(At(Normal(j), path).value.members)
    decreases path
  {
    if path == [] {
      var ms := Normal(j).members;
      SortIncreasing(NormalMembers(j.members));
      forall i, k | 0 <= i < k < |ms| ensures CodePointBefore(ms[i].key, ms[k].key) {
        LessIsCodePointOrder(ms[i].key, ms[k].key);
      }
    } else {
      match j
      case Arr(items) =>
        AtNormalItem(items, path);
        KeysAscendAtEveryDepth(items[path[0]], path[1..]);
      case Obj(ms) =>
        var k := AtNormalMember(ms, path);
        KeysAscendAtEveryDepth(ms[k].val, path[1..]);
      case _ =>
    }
  }

  lemma {:induction false} NormalFloatFree(j: Json)
    requires FloatFree(j)
    ensures FloatFree(Normal(j))
    decreases j
  {
    match j
    case Arr(items) =>
      forall i | 0 <= i < |items| ensures FloatFree(NormalItems(items)[i]) {
        NormalFloatFree(items[i]);
      }
    case Obj(ms) =>
      forall i | 0 <= i < |ms| ensures FloatFree(NormalMembers(ms)[i].val) {
        NormalFloatFree(ms[i].val);
      }
      SortMembers(NormalMembers(ms));
      forall i | 0 <= i < |ms| ensures FloatFree(Sort(NormalMembers(ms))[i].val) {
        assert Sort(NormalMembers(ms))[i] in NormalMembers(ms);
      }
    case _ =>
  }

  /** A parser recovers the sorted tree of every float-free value from its canonical text. */
  lemma CanonicalRoundTrip(j: Json)
    requires FloatFree(j)
    ensures CanonicalDumps(j).Ok? && Parse(CanonicalDumps(j).value) == Parsed(Normal(j), "")
  {
    EncodePrintsNormal(j);
    NormalFloatFree(j);
    PrintOntoIsPrint(Normal(j), "\n");
    ParsePrinted(Normal(j), "\n");
  }

  // ---------- sorting a tree keeps its content and forgets nothing else

  lemma {:induction false} NormalKeepsMeaning(j: Json)
    requires WellFormed(j)
    ensures Meaning(Normal(j)) == Meaning(j)
    decreases j
  {
    match j
    case Arr(items) =>
      forall i | 0 <= i < |items| ensures Meaning(NormalItems(items)[i]) == Meaning(items[i]) {
        NormalKeepsMeaning(items[i]);
      }
      assert MeaningItems(NormalItems(items)) == MeaningItems(items);
    case Obj(ms) =>
      forall i | 0 <= i < |ms| ensures Meaning(NormalMembers(ms)[i].val) == Meaning(ms[i].val) {
        NormalKeepsMeaning(ms[i].val);
      }
      SortMapped(Meaning, NormalMembers(ms), MeaningMembers(ms));
      assert MeaningMembers(Sort(NormalMembers(ms))) == Sort(MeaningMembers(ms));
      AsMapSort(MeaningMembers(ms));
    case _ =>
  }

  lemma {:induction false} SameMeaningSameNormal(a: Json, b: Json)
    requires WellFormed(a) && WellFormed(b) && Meaning(a) == Meaning(b)
    ensures Normal(a) == Normal(b)
    decreases a
  {
    match a
    case Arr(xs) =>
      assert b.Arr?;
      forall i | 0 <= i < |xs| ensures Normal(xs[i]) == Normal(b.items[i]) {
        assert MeaningItems(xs)[i] == MeaningItems(b.items)[i];
        SameMeaningSameNormal(xs[i], b.items[i]);
      }
      assert NormalItems(xs) == NormalItems(b.items);
    case Obj(ms) =>
      assert b.Obj?;
      SameMembers(ms, b.members);
    case _ =>
  }

  lemma {:induction false} SameMembers(a: seq<Entry<Json>>, b: seq<Entry<Json>>)
    requires WellFormed(Obj(a)) && WellFormed(Obj(b))
    requires AsMap(MeaningMembers(a)) == AsMap(MeaningMembers(b))
    ensures Sort(NormalMembers(a)) == Sort(NormalMembers(b))
    decreases a, 1
  {
    MapSubset(MeaningMembers(a), MeaningMembers(b));
    MapSubset(MeaningMembers(b), MeaningMembers(a));
    forall i | 0 <= i < |a| ensures NormalMembers(a)[i] in NormalMembers(b) {
      var k := PlaceOf(MeaningMembers(a)[i], MeaningMembers(b));
      SameMember(a, i, b, k);
    }
    forall k | 0 <= k < |b| ensures NormalMembers(b)[k] in NormalMembers(a) {
      var i := PlaceOf(MeaningMembers(b)[k], MeaningMembers(a));
      SameMember(a, i, b, k);
    }
    SameEntriesSameSort(NormalMembers(a), NormalMembers(b));
  }

  lemma {:induction false} SameMember(a: seq<Entry<Json>>, i: nat, b: seq<Entry<Json>>, k: nat)
    requires WellFormed(Obj(a)) && WellFormed(Obj(b)) && i < |a| && k < |b|
    requires MeaningMembers(a)[i] == MeaningMembers(b)[k]
    ensures NormalMembers(a)[i] == NormalMembers(b)[k]
    decreases a, 0
  {
    SameMeaningSameNormal(a[i].val, b[k].val);
  }

  lemma PlaceOf<T>(e: Entry<T>, es: seq<Entry<T>>) returns (k: nat)
    requires e in es
    ensures k < |es| && es[k] == e
  {
    k :| 0 <= k < |es| && es[k] == e;
  }

  lemma SameEntriesSameSort(a: seq<Entry<Json>>, b: seq<Entry<Json>>)
    requires Distinct(a) && Distinct(b) && SameEntries(a, b)
    ensures Sort(a) == Sort(b)
  {
    EntriesDecideMap(a, b);
    SortUnique(a, b);
  }

  /**
   * Main result: canonical text is equal exactly when content is, whatever the insertion order of keys at any depth.
   */
  lemma CanonicalTextIsContent(a: Json, b: Json)
    requires WellFormed(a) && WellFormed(b) && FloatFree(a) && FloatFree(b)
    ensures CanonicalDumps(a) == CanonicalDumps(b) <==> Meaning(a) == Meaning(b)
  {
    if Meaning(a) == Meaning(b) {
      SameMeaningSameNormal(a, b);
      EncodePrintsNormal(a);
      EncodePrintsNormal(b);
    }
    if CanonicalDumps(a) == CanonicalDumps(b) {
      CanonicalRoundTrip(a);
      CanonicalRoundTrip(b);
      NormalKeepsMeaning(a);
      NormalKeepsMeaning(b);
    }
  }

  // ---------- encoding succeeds exactly when no float occurs

  lemma {:induction false} FloatFreePaths(j: Json, path: seq<nat>)
    requires FloatFree(j) && At(j, path).Some?
    ensures !At(j, path).value.Float?
    decreases path
  {
    if path == [] {
    } else {
      match j
      case Arr(items) => FloatFreePaths(items[path[0]], path[1..]);
      case Obj(ms) => FloatFreePaths(ms[path[0]].val, path[1..]);
    }
  }

  lemma {:induction false} FloatPath(j: Json) returns (path: seq<nat>)
    requires !FloatFree(j)
    ensures At(j, path).Some? && At(j, path).value.Float?
    decreases j
  {
    match j
    case Arr(items) =>
      var i :| 0 <= i < |items| && !FloatFree(items[i]);
      var tail := FloatPath(items[i]);
      path := [i] + tail;
      assert path[1..] == tail;
    case Obj(ms) =>
      var i :| 0 <= i < |ms| && !FloatFree(ms[i].val);
      var tail := FloatPath(ms[i].val);
      path := [i] + tail;
      assert path[1..] == tail;
    case Float(_) => path := [];
  }

  lemma EncodingRefusesExactlyFloats(j: Json)
    ensures CanonicalDumps(j).Ok? <==> !FloatAtSomeDepth(j)
  {
    if FloatFree(j) {
      forall path: seq<nat> | At(j, path).Some? ensures !At(j, path).value.Float? {
        FloatFreePaths(j, path);
      }
    } else {
      var path := FloatPath(j);
    }
  }
}
