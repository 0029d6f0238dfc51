/** Python's substring search on strings. */
module TextSearch {
  import opened Basics

  predicate OccursAt(text: string, i: nat, pattern: string) {
    i + |pattern| <= |text| && text[i..i + |pattern|] == pattern
  }

  /** `text.find(pattern, from, to)`, with None for -1. */
  function Find(text: string, pattern: string, from: nat, to: nat): (r: Option<nat>)
    ensures r.Some? ==> from <= r.value && r.value + |pattern| <= to && OccursAt(text, r.value, pattern)
    ensures r.Some? ==> forall i: nat :: from <= i < r.value ==> !OccursAt(text, i, pattern)
    ensures r.None? ==> forall i: nat :: (from <= i && i + |pattern| <= to ==> !OccursAt(text, i, pattern))
    decreases |text| - from
  {
    if from + |pattern| > |text| || from + |pattern| > to then None
    else if OccursAt(text, from, pattern) then Some(from)
    else Find(text, pattern, from + 1, to)
  }

  predicate Contains(text: string, pattern: string) {
    Find(text, pattern, 0, |text|).Some?
  }

  lemma OccursInTail(a: string, b: string, i: nat, pattern: string)
    ensures OccursAt(a + b, |a| + i, pattern) <==> OccursAt(b, i, pattern)
  {
    if i + |pattern| <= |b| {
      assert (a + b)[|a| + i..|a| + i + |pattern|] == b[i..i + |pattern|];
    }
  }

  lemma OccursInHead(a: string, b: string, i: nat, pattern: string)
    requires i + |pattern| <= |a|
    ensures OccursAt(a + b, i, pattern) <==> OccursAt(a, i, pattern)
  {
    assert (a + b)[i..i + |pattern|] == a[i..i + |pattern|];
  }

  lemma OccursChar(text: string, i: nat, pattern: string, k: nat)
    requires OccursAt(text, i, pattern) && k < |pattern|
    ensures text[i + k] == pattern[k]
  {
    assert text[i..i + |pattern|][k] == text[i + k];
  }
}
