/** Collections of JSON objects that a server stores and a client searches by the values of some keys. */
module Objects {
  import opened JsonValues

  /** Every key of the pattern has the pattern's value; a missing key counts as null. */
  predicate Satisfies(o: Object, pattern: Object) {
    forall key | key in pattern :: Get(o, key) == pattern[key]
  }

  datatype Found = Nothing | One(index: nat) | Many

  /** Selects the objects that satisfy a pattern and tells none, a single one and several apart. */
  function Search(objects: seq<Object>, pattern: Object): (found: Found)
    ensures found.One? ==> found.index < |objects|
  {
    if objects == [] then Nothing
    else
      var last := |objects| - 1;
      var before := Search(objects[..last], pattern);
      if !Satisfies(objects[last], pattern) then before
      else if before.Nothing? then One(last)
      else Many
  }

  lemma {:induction false} SearchMeans(objects: seq<Object>, pattern: Object)
    ensures Search(objects, pattern).Nothing? <==> forall i | 0 <= i < |objects| :: !Satisfies(objects[i], pattern)
    ensures forall i | 0 <= i < |objects| ::
        Search(objects, pattern) == One(i) <==>
        Satisfies(objects[i], pattern) && forall j | 0 <= j < |objects| && j != i :: !Satisfies(objects[j], pattern)
  {
    if objects != [] {
      var last := |objects| - 1;
      SearchMeans(objects[..last], pattern);
      assert forall i | 0 <= i < last :: objects[..last][i] == objects[i];
      var before := Search(objects[..last], pattern);
      if before.One? {
        assert Satisfies(objects[before.index], pattern);
      }
    }
  }

  /** What satisfies the pattern is what the search found, unless it found several. */
  lemma FoundAt(objects: seq<Object>, pattern: Object, x: nat)
    requires x < |objects| && Satisfies(objects[x], pattern)
    ensures Search(objects, pattern) == One(x) || Search(objects, pattern).Many?
  {
    SearchMeans(objects, pattern);
  }

  lemma FoundSatisfies(objects: seq<Object>, pattern: Object, i: nat)
    requires Search(objects, pattern) == One(i)
    ensures Satisfies(objects[i], pattern)
  {
    SearchMeans(objects, pattern);
  }

  /** A search depends only on which objects satisfy the pattern. */
  lemma SearchSame(a: seq<Object>, b: seq<Object>, pattern: Object)
    requires forall i: nat :: (i < |a| && Satisfies(a[i], pattern)) <==> (i < |b| && Satisfies(b[i], pattern))
    ensures Search(a, pattern) == Search(b, pattern)
  {
    SearchMeans(a, pattern);
    SearchMeans(b, pattern);
  }

  /** Two patterns that ask for different values of one key. */
  predicate Conflict(p: Object, q: Object) {
    exists key | key in p && key in q :: p[key] != q[key]
  }

  /** A search finds the same object at the same place in both collections, or the same kind of nothing. */
  predicate SameSearch(before: seq<Object>, after: seq<Object>, pattern: Object) {
    && Search(before, pattern) == Search(after, pattern)
    && (Search(before, pattern).One? ==>
        before[Search(before, pattern).index] == after[Search(after, pattern).index])
  }

  /** A collection after one object was replaced, or one was appended. */
  predicate Replaced(before: seq<Object>, after: seq<Object>, i: nat) {
    i < |before| == |after| && after == before[i := after[i]]
  }

  predicate Appended(before: seq<Object>, after: seq<Object>) {
    |after| == |before| + 1 && after[..|before|] == before
  }

  /** Writing an object that fails a pattern before and after does not disturb a search for it. */
  lemma {:induction false} SearchUndisturbed(before: seq<Object>, after: seq<Object>, i: nat, pattern: Object)
    requires Replaced(before, after, i) || (Appended(before, after) && i == |before|)
    requires i < |before| ==> !Satisfies(before[i], pattern)
    requires !Satisfies(after[i], pattern)
    ensures SameSearch(before, after, pattern)
  {
    if Appended(before, after) {
      assert after[..|after| - 1] == before;
    } else if i == |before| - 1 {
      assert after[..i] == before[..i];
    } else {
      var last := |before| - 1;
      assert after[..last] == before[..last][i := after[i]];
      SearchUndisturbed(before[..last], after[..last], i, pattern);
    }
  }
}
