/** The order in which Object.keys and Object.values list the own properties
    of a plain object (OrdinaryOwnPropertyKeys, section 10.1.11.1 of
    ECMA-262): first every array-index name in ascending numeric order, then
    every other name in the order it was first added. Both the header list of
    a parsed sheet and the labels of a chart series come out in this order. */
module ObjectKeys {
  import opened JsValues
  import opened Sorting

  function IndexKeys(s: seq<string>): seq<string> {
    Filter(s, IsArrayIndex, true)
  }

  function NamedKeys(s: seq<string>): seq<string> {
    Filter(s, IsArrayIndex, false)
  }

  function IndexLe(a: string, b: string): bool {
    ArrayIndexValue(a) <= ArrayIndexValue(b)
  }

  /** Object.keys(o) for an object whose properties were added in the order
      `insertion` (each name once). */
  function ObjectKeyOrder(insertion: seq<string>): seq<string> {
    SortBy(IndexKeys(insertion), IndexLe) + NamedKeys(insertion)
  }

  lemma IndexLeIsPreorder()
    ensures TotalPreorder(IndexLe)
  {
  }

  lemma SortedIndicesAreIndices(insertion: seq<string>)
    ensures forall k :: k in SortBy(IndexKeys(insertion), IndexLe) ==> IsArrayIndex(k)
  {
    FilterMembers(insertion, IsArrayIndex, true);
    forall k | k in SortBy(IndexKeys(insertion), IndexLe) ensures IsArrayIndex(k) {
      assert k in multiset(SortBy(IndexKeys(insertion), IndexLe));
    }
  }

  lemma ObjectKeyOrderIndicesFirst(insertion: seq<string>)
    ensures forall i, j :: 0 <= i < j < |ObjectKeyOrder(insertion)| && IsArrayIndex(ObjectKeyOrder(insertion)[j]) ==>
      IsArrayIndex(ObjectKeyOrder(insertion)[i])
        && ArrayIndexValue(ObjectKeyOrder(insertion)[i]) <= ArrayIndexValue(ObjectKeyOrder(insertion)[j])
  {
    var a := SortBy(IndexKeys(insertion), IndexLe);
    var keys := ObjectKeyOrder(insertion);
    IndexLeIsPreorder();
    SortBySorted(IndexKeys(insertion), IndexLe);
    SortedIndicesAreIndices(insertion);
    FilterMembers(insertion, IsArrayIndex, false);
    forall m | |a| <= m < |keys| ensures !IsArrayIndex(keys[m]) {
      assert keys[m] == NamedKeys(insertion)[m - |a|];
      assert keys[m] in NamedKeys(insertion);
    }
    forall i, j | 0 <= i < j < |keys| && IsArrayIndex(keys[j])
      ensures IsArrayIndex(keys[i]) && ArrayIndexValue(keys[i]) <= ArrayIndexValue(keys[j])
    {
      assert keys[i] == a[i] && keys[j] == a[j];
    }
  }

  lemma ObjectKeyOrderKeepsNamed(insertion: seq<string>)
    ensures NamedKeys(ObjectKeyOrder(insertion)) == NamedKeys(insertion)
  {
    var a := SortBy(IndexKeys(insertion), IndexLe);
    SortedIndicesAreIndices(insertion);
    FilterAppend(a, NamedKeys(insertion), IsArrayIndex, false);
    FilterMembers(insertion, IsArrayIndex, false);
    FilterNone(a, IsArrayIndex, false);
    FilterAll(NamedKeys(insertion), IsArrayIndex, false);
  }

  /** Object.keys lists the same names as were added, array indices first
      and ascending, the other names in insertion order; with no array-index
      name it is exactly the insertion order. */
  lemma ObjectKeyOrderSpec(insertion: seq<string>)
    ensures multiset(ObjectKeyOrder(insertion)) == multiset(insertion)
    ensures forall i, j :: 0 <= i < j < |ObjectKeyOrder(insertion)| && IsArrayIndex(ObjectKeyOrder(insertion)[j]) ==>
      IsArrayIndex(ObjectKeyOrder(insertion)[i])
        && ArrayIndexValue(ObjectKeyOrder(insertion)[i]) <= ArrayIndexValue(ObjectKeyOrder(insertion)[j])
    ensures NamedKeys(ObjectKeyOrder(insertion)) == NamedKeys(insertion)
    ensures IndexKeys(insertion) == [] ==> ObjectKeyOrder(insertion) == insertion
  {
    FilterPartition(insertion, IsArrayIndex);
    ObjectKeyOrderIndicesFirst(insertion);
    ObjectKeyOrderKeepsNamed(insertion);
    if IndexKeys(insertion) == [] {
      FilterComplement(insertion, IsArrayIndex);
    }
  }

  /** Object.keys lists exactly the names that were added. */
  lemma ObjectKeyOrderMembers(insertion: seq<string>)
    ensures forall k :: k in ObjectKeyOrder(insertion) <==> k in insertion
  {
    FilterPartition(insertion, IsArrayIndex);
    var a := SortBy(IndexKeys(insertion), IndexLe);
    assert multiset(ObjectKeyOrder(insertion)) == multiset(a) + multiset(NamedKeys(insertion));
    forall k ensures k in ObjectKeyOrder(insertion) <==> k in insertion {
      assert k in ObjectKeyOrder(insertion) <==> k in multiset(ObjectKeyOrder(insertion));
      assert k in insertion <==> k in multiset(insertion);
    }
  }

  /** With no array-index name, Object.keys is the insertion order. */
  lemma ObjectKeyOrderOfNamed(insertion: seq<string>)
    requires forall k :: k in insertion ==> !IsArrayIndex(k)
    ensures ObjectKeyOrder(insertion) == insertion
  {
    FilterNone(insertion, IsArrayIndex, true);
    FilterAll(insertion, IsArrayIndex, false);
  }

  lemma SmallNames()
    ensures IsArrayIndex("1") && ArrayIndexValue("1") == 1
    ensures IsArrayIndex("2") && ArrayIndexValue("2") == 2
    ensures !IsArrayIndex("b")
  {
    assert "2"[..0] == "" && "1"[..0] == "";
    assert !IsDigit("b"[0]);
  }

  lemma ExampleSplit()
    ensures IndexKeys(["b", "2", "1"]) == ["2", "1"]
    ensures NamedKeys(["b", "2", "1"]) == ["b"]
  {
    SmallNames();
    assert ["b", "2", "1"][1..] == ["2", "1"];
    assert ["2", "1"][1..] == ["1"];
  }

  lemma ExampleSort()
    ensures SortBy(["2", "1"], IndexLe) == ["1", "2"]
  {
    SmallNames();
    assert ["2", "1"][1..] == ["1"];
    assert SortBy(["1"], IndexLe) == ["1"];
    assert InsertBy("2", ["1"], IndexLe) == ["1", "2"];
  }

  /** Names added as "b", "2", "1" are listed as "1", "2", "b". */
  lemma IndexNamesFirst()
    ensures ObjectKeyOrder(["b", "2", "1"]) == ["1", "2", "b"]
  {
    ExampleSplit();
    ExampleSort();
  }

  /** Distinct names stay distinct. */
  lemma ObjectKeyOrderNoDup(insertion: seq<string>)
    requires NoDup(insertion)
    ensures NoDup(ObjectKeyOrder(insertion))
  {
    ObjectKeyOrderSpec(insertion);
    NoDupPermutation(insertion, ObjectKeyOrder(insertion));
  }
}
