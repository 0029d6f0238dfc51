/** The failure-function search that finds how much of a sensitive value stands at the end of a text. */
module PrefixSearch {
  import opened TextSearch

  const NUL := '\0'

  function Min(a: nat, b: nat): nat {
    if a < b then a else b
  }

  /** The last `k` characters of `text` are the first `k` of `value`. */
  predicate Stands(value: string, text: string, k: nat) {
    k <= |value| && k <= |text| && value[..k] == text[|text| - k..]
  }

  function LongestUpTo(value: string, text: string, k: nat): (r: nat)
    ensures r <= k && Stands(value, text, r)
    ensures forall j :: r < j <= k ==> !Stands(value, text, j)
  {
    if Stands(value, text, k) then k else LongestUpTo(value, text, k - 1)
  }

  /** The length of the longest prefix of `value` that ends `text`. */
  function Longest(value: string, text: string): (r: nat)
    ensures Stands(value, text, r)
    ensures forall j: nat :: Stands(value, text, j) ==> j <= r
  {
    LongestUpTo(value, text, Min(|value|, |text|))
  }

  // ----- borders

  /** A proper prefix of s[..n] that is also its suffix. */
  predicate Border(s: string, n: nat, k: nat)
    requires n <= |s|
  {
    k < n && s[..k] == s[n - k..n]
  }

  ghost predicate LongestBorder(s: string, n: nat, k: nat)
    requires n <= |s|
  {
    Border(s, n, k) && forall j: nat :: Border(s, n, j) ==> j <= k
  }

  lemma BorderAt(s: string, n: nat, k: nat, i: nat)
    requires n <= |s| && Border(s, n, k) && i < k
    ensures s[i] == s[n - k + i]
  {
    assert s[..k][i] == s[n - k..n][i];
  }

  lemma BorderFrom(s: string, n: nat, k: nat)
    requires n <= |s| && k < n
    requires forall i :: 0 <= i < k ==> s[i] == s[n - k + i]
    ensures Border(s, n, k)
  {
    forall i | 0 <= i < k ensures s[..k][i] == s[n - k..n][i] {}
  }

  lemma BorderShrinks(s: string, n: nat, k: nat)
    requires n + 1 <= |s| && Border(s, n + 1, k + 1)
    ensures Border(s, n, k) && s[k] == s[n]
  {
    forall i | 0 <= i < k ensures s[i] == s[n - k + i] { BorderAt(s, n + 1, k + 1, i); }
    BorderFrom(s, n, k);
    BorderAt(s, n + 1, k + 1, k);
  }

  lemma BorderGrows(s: string, n: nat, k: nat)
    requires n + 1 <= |s| && Border(s, n, k) && s[k] == s[n]
    ensures Border(s, n + 1, k + 1)
  {
    forall i | 0 <= i < k + 1 ensures s[i] == s[n + 1 - (k + 1) + i] { if i < k { BorderAt(s, n, k, i); } }
    BorderFrom(s, n + 1, k + 1);
  }

  /** A shorter border is a border of the longer one. */
  lemma BorderOfBorder(s: string, n: nat, a: nat, b: nat)
    requires n <= |s| && Border(s, n, a) && Border(s, n, b) && b < a
    ensures Border(s, a, b)
  {
    forall i | 0 <= i < b ensures s[i] == s[a - b + i] {
      BorderAt(s, n, b, i);
      BorderAt(s, n, a, a - b + i);
    }
    BorderFrom(s, a, b);
  }

  lemma BorderThrough(s: string, n: nat, a: nat, b: nat)
    requires n <= |s| && Border(s, n, a) && Border(s, a, b)
    ensures Border(s, n, b)
  {
    forall i | 0 <= i < b ensures s[i] == s[n - b + i] {
      BorderAt(s, a, b, i);
      BorderAt(s, n, a, a - b + i);
    }
    BorderFrom(s, n, b);
  }

  predicate Extends(s: string, n: nat, k: nat)
    requires n + 1 <= |s|
  {
    Border(s, n + 1, k + 1)
  }

  /** What is left to try: every border of s[..n + 1] extends a border of s[..n] of length at most `candidate`. */
  ghost predicate Bounded(s: string, n: nat, candidate: nat)
    requires n + 1 <= |s|
  {
    forall k: nat :: Extends(s, n, k) ==> k <= candidate
  }

  lemma StartBounded(s: string, n: nat, candidate: nat)
    requires 0 < n && n + 1 <= |s| && LongestBorder(s, n, candidate)
    ensures Bounded(s, n, candidate)
  {
    forall k: nat | Extends(s, n, k) ensures k <= candidate { BorderShrinks(s, n, k); }
  }

  lemma FallBack(s: string, n: nat, candidate: nat, next: nat)
    requires n + 1 <= |s| && 0 < candidate && Border(s, n, candidate) && Bounded(s, n, candidate)
    requires s[n] != s[candidate] && LongestBorder(s, candidate, next)
    ensures Border(s, n, next) && Bounded(s, n, next)
  {
    BorderThrough(s, n, candidate, next);
    forall k: nat | Extends(s, n, k) ensures k <= next {
      BorderShrinks(s, n, k);
      if k < candidate { BorderOfBorder(s, n, candidate, k); }
    }
  }

  lemma Settled(s: string, n: nat, candidate: nat)
    requires 0 < n && n + 1 <= |s| && Border(s, n, candidate) && Bounded(s, n, candidate)
    requires s[n] == s[candidate] || candidate == 0
    ensures LongestBorder(s, n + 1, if s[n] == s[candidate] then candidate + 1 else 0)
  {
    var m := n + 1;
    if s[n] == s[candidate] {
      BorderGrows(s, n, candidate);
      forall j: nat | Border(s, m, j) ensures j <= candidate + 1 { if j > 0 { assert Extends(s, n, j - 1); } }
    } else {
      forall j: nat | Border(s, m, j) ensures j <= 0 {
        if j > 0 { assert Extends(s, n, j - 1); BorderShrinks(s, n, j - 1); }
      }
    }
  }

  ghost predicate FailuresOf(s: string, lengths: seq<nat>) {
    |lengths| <= |s| && forall i: nat :: i < |lengths| ==> LongestBorder(s, i + 1, lengths[i])
  }

  lemma FailureAt(s: string, lengths: seq<nat>, n: nat)
    requires FailuresOf(s, lengths) && 0 < n <= |lengths|
    ensures LongestBorder(s, n, lengths[n - 1])
  {
    var i: nat := n - 1;
    assert LongestBorder(s, i + 1, lengths[i]);
  }

  /** The failure function of a non-empty string, filled in place. */
  method FailureFunction(s: string) returns (lengths: array<nat>)
    requires s != []
    ensures lengths.Length == |s| && FailuresOf(s, lengths[..])
  {
    lengths := new nat[|s|](_ => 0);
    var index := 1;
    assert LongestBorder(s, 1, lengths[0]);
    while index < |s|
      invariant 1 <= index <= |s|
      invariant FailuresOf(s, lengths[..index])
    {
      ghost var found := lengths[..index];
      var candidate: nat := lengths[index - 1];
      FailureAt(s, found, index);
      StartBounded(s, index, candidate);
      while candidate != 0 && s[index] != s[candidate]
        invariant candidate < index && Border(s, index, candidate) && Bounded(s, index, candidate)
        invariant found == lengths[..index]
        decreases candidate
      {
        FailureAt(s, found, candidate);
        FallBack(s, index, candidate, found[candidate - 1]);
        candidate := lengths[candidate - 1];
      }
      Settled(s, index, candidate);
      if s[index] == s[candidate] { candidate := candidate + 1; }
      lengths[index] := candidate;
      assert lengths[..index + 1] == found + [candidate];
      index := index + 1;
    }
    assert lengths[..] == lengths[..index];
  }

  // ----- the search

  predicate Nuls(s: string) {
    forall i :: 0 <= i < |s| ==> s[i] == NUL
  }

  /** The string the search runs on. */
  ghost predicate Joined(s: string, prefix: string, separator: string, suffix: string) {
    && s == prefix + separator + suffix && |prefix| == |suffix|
    && separator != [] && Nuls(separator) && !Contains(suffix, separator)
  }

  /** Up to the common length, borders are what is sought. */
  lemma ShortBorders(s: string, prefix: string, separator: string, suffix: string, k: nat)
    requires Joined(s, prefix, separator, suffix) && k <= |prefix|
    ensures Border(s, |s|, k) <==> prefix[..k] == suffix[|suffix| - k..]
  {
    assert s[..k] == prefix[..k];
    assert s[|s| - k..|s|] == suffix[|suffix| - k..];
  }

  /** Shifting by d keeps a character that is not NUL, until it lands in the separator. */
  lemma {:induction false} NoSmallShift(s: string, m: nat, l: nat, d: nat, i: nat)
    requires 0 < d <= l && m + l + d <= |s| && i < m && s[i] != NUL
    requires forall j :: 0 <= j < |s| - d ==> s[j] == s[j + d]
    ensures exists j :: m <= j < m + l && s[j] != NUL
    decreases m - i
  {
    assert s[i + d] == s[i];
    if i + d < m { NoSmallShift(s, m, l, d, i + d); }
  }

  /** No border is longer than the common length when the prefix does not begin with NUL. */
  lemma NoLongBorder(s: string, prefix: string, separator: string, suffix: string, k: nat)
    requires Joined(s, prefix, separator, suffix) && prefix != [] && prefix[0] != NUL
    requires Border(s, |s|, k)
    ensures k <= |prefix|
  {
    var m, l, d := |prefix|, |separator|, |s| - k;
    if k > m {
      forall j | 0 <= j < |s| - d ensures s[j] == s[j + d] { BorderAt(s, |s|, k, j); }
      assert s[0] == s[d] && s[0] == prefix[0];
      SeparatorChars(s, prefix, separator, suffix);
      if d < m {
        if d < l {
          NoSmallShift(s, m, l, d, 0);
        } else {
          SeparatorMoved(s, prefix, separator, suffix, d);
        }
      }
    }
  }

  lemma SeparatorChars(s: string, prefix: string, separator: string, suffix: string)
    requires Joined(s, prefix, separator, suffix)
    ensures forall j :: |prefix| <= j < |prefix| + |separator| ==> s[j] == NUL
  {
    forall j | |prefix| <= j < |prefix| + |separator| ensures s[j] == NUL {
      assert s[j] == separator[j - |prefix|];
    }
  }

  lemma SeparatorMoved(s: string, prefix: string, separator: string, suffix: string, d: nat)
    requires Joined(s, prefix, separator, suffix) && |separator| <= d <= |prefix|
    ensures exists j :: 0 <= j < |s| - d && s[j] != s[j + d]
  {
    var m, l := |prefix|, |separator|;
    assert !OccursAt(suffix, d - l, separator);
    assert suffix[d - l..d] != separator;
    var i :| 0 <= i < l && suffix[d - l + i] != separator[i];
    assert s[m + i] == separator[i];
    assert s[m + i + d] == suffix[d - l + i];
  }

  /** Nor when the prefix is nothing but NULs, unless the suffix is as well. */
  lemma NoLongNulBorder(s: string, prefix: string, separator: string, suffix: string, k: nat, i: nat)
    requires Joined(s, prefix, separator, suffix) && Nuls(prefix) && Border(s, |s|, k)
    requires i < |s| && s[i] != NUL && forall j :: 0 <= j < i ==> s[j] == NUL
    ensures k <= |prefix|
  {
    if k > |prefix| {
      assert forall j :: 0 <= j < |prefix| ==> s[j] == prefix[j];
      SeparatorChars(s, prefix, separator, suffix);
      BorderAt(s, |s|, k, i - (|s| - k));
    }
  }

  lemma {:induction false} FirstOther(s: string, i: nat) returns (k: nat)
    requires i < |s| && s[i] != NUL
    ensures k < |s| && s[k] != NUL && forall j :: 0 <= j < k ==> s[j] == NUL
    decreases i
  {
    if j :| 0 <= j < i && s[j] != NUL { k := FirstOther(s, j); } else { k := i; }
  }

  lemma NulsAlike(prefix: string, suffix: string)
    requires |prefix| == |suffix| && Nuls(prefix) && Nuls(suffix)
    ensures prefix == suffix
  {
  }

  lemma NulBorderCapped(s: string, prefix: string, separator: string, suffix: string, longest: nat)
    requires Joined(s, prefix, separator, suffix) && Nuls(prefix) && LongestBorder(s, |s|, longest)
    ensures var k := Min(longest, |prefix|); prefix[..k] == suffix[|suffix| - k..]
  {
    if Nuls(suffix) {
      NulsAlike(prefix, suffix);
      ShortBorders(s, prefix, separator, suffix, |prefix|);
    } else {
      var j :| 0 <= j < |suffix| && suffix[j] != NUL;
      assert s[|prefix| + |separator| + j] == suffix[j];
      var i := FirstOther(s, |prefix| + |separator| + j);
      NoLongNulBorder(s, prefix, separator, suffix, longest, i);
      ShortBorders(s, prefix, separator, suffix, longest);
    }
  }

  /** The values the search is right about: no NUL in front, or nothing but NULs. */
  predicate Findable(value: string) {
    value == [] || value[0] != NUL || Nuls(value)
  }

  /** What the failure function's last entry, capped, means. */
  lemma CappedBorder(s: string, prefix: string, separator: string, suffix: string, longest: nat)
    requires Joined(s, prefix, separator, suffix) && LongestBorder(s, |s|, longest)
    ensures forall k :: 0 <= k <= |prefix| && prefix[..k] == suffix[|suffix| - k..] ==> k <= longest
    ensures Findable(prefix) ==> var k := Min(longest, |prefix|); prefix[..k] == suffix[|suffix| - k..]
  {
    forall k | 0 <= k <= |prefix| && prefix[..k] == suffix[|suffix| - k..] ensures k <= longest {
      ShortBorders(s, prefix, separator, suffix, k);
    }
    if Nuls(prefix) {
      NulBorderCapped(s, prefix, separator, suffix, longest);
    } else if Findable(prefix) {
      NoLongBorder(s, prefix, separator, suffix, longest);
      ShortBorders(s, prefix, separator, suffix, longest);
    }
  }

  method Separator(suffix: string) returns (separator: string)
    ensures separator != [] && Nuls(separator) && !Contains(suffix, separator)
  {
    separator := [NUL];
    while Contains(suffix, separator)
      invariant separator != [] && Nuls(separator)
      decreases |suffix| + 1 - |separator|
    {
      separator := separator + [NUL];
    }
  }

  lemma CutStands(value: string, text: string, m: nat, k: nat)
    requires m == Min(|value|, |text|) && k <= m
    ensures Stands(value, text, k) <==> value[..m][..k] == text[|text| - m..][m - k..]
  {
    assert value[..m][..k] == value[..k];
    assert text[|text| - m..][m - k..] == text[|text| - k..];
  }

  /** What the search reports with this separator: the longest border, at most the common length. */
  ghost predicate ReportsWith(value: string, text: string, separator: string, longest: nat, length: nat) {
    var m := Min(|value|, |text|);
    var prefix, suffix := value[..m], text[|text| - m..];
    var s := prefix + separator + suffix;
    Joined(s, prefix, separator, suffix) && LongestBorder(s, |s|, longest) && length == Min(longest, m)
  }

  ghost predicate Reports(value: string, text: string, length: nat) {
    if value == [] || text == [] then length == 0
    else exists separator, longest :: ReportsWith(value, text, separator, longest, length)
  }

  lemma ReportedBounds(value: string, text: string, separator: string, longest: nat, length: nat)
    requires ReportsWith(value, text, separator, longest, length)
    ensures Longest(value, text) <= length <= Min(|value|, |text|)
    ensures Findable(value) ==> length == Longest(value, text)
  {
    var m := Min(|value|, |text|);
    var prefix, suffix := value[..m], text[|text| - m..];
    CappedBorder(prefix + separator + suffix, prefix, separator, suffix, longest);
    CutStands(value, text, m, Longest(value, text));
    CutStands(value, text, m, length);
  }

  lemma ReportedWith(value: string, text: string, separator: string, longest: nat, length: nat)
    requires ReportsWith(value, text, separator, longest, length)
    ensures Reports(value, text, length)
  {
  }

  /** `_longest_prefix_at_end`. Never too short; exact for every value without a leading NUL. */
  method LongestPrefixAtEnd(value: string, text: string) returns (length: nat)
    ensures Reports(value, text, length)
    ensures Longest(value, text) <= length <= Min(|value|, |text|)
    ensures Findable(value) ==> length == Longest(value, text)
  {
    var m := Min(|value|, |text|);
    var prefix := value[..m];
    // A Python slice from -0 is the whole text.
    var suffix := if m == 0 then text else text[|text| - m..];
    var separator := Separator(suffix);
    var s := prefix + separator + suffix;
    var lengths := FailureFunction(s);
    length := Min(lengths[|s| - 1], m);
    if m > 0 {
      FailureAt(s, lengths[..], |s|);
      ReportedBounds(value, text, separator, lengths[|s| - 1], length);
      ReportedWith(value, text, separator, lengths[|s| - 1], length);
    }
  }

  lemma StandsAt(value: string, text: string, k: nat, i: nat)
    requires Stands(value, text, k) && i < k
    ensures value[i] == text[|text| - k + i]
  {
    assert value[..k][i] == value[i] && text[|text| - k..][i] == text[|text| - k + i];
  }

  /** A text on which a value with a leading NUL that is not all NULs is misjudged: the value up to its first other
      character, less one NUL, and a NUL. */
  function Misleading(value: string, a: nat): string
    requires a < |value|
  {
    value[1..a + 1] + [NUL]
  }

  /** There the separator's last NUL is mistaken for the value's first. */
  lemma MisleadingBorder(value: string, a: nat, separator: string, longest: nat, length: nat)
    requires 0 < a < |value| && value[a] != NUL && forall j :: 0 <= j < a ==> value[j] == NUL
    requires ReportsWith(value, Misleading(value, a), separator, longest, length)
    ensures length == a + 1
  {
    var text, prefix := Misleading(value, a), value[..a + 1];
    assert |text| == a + 1 && text[|text| - (a + 1)..] == text;
    var s := prefix + separator + text;
    SeparatorChars(s, prefix, separator, text);
    var d := |s| - (a + 2);
    forall i | 0 <= i < a + 2 ensures s[i] == s[d + i] {
      assert d == |prefix| + |separator| - 1;
      if i > 0 { assert s[d + i] == text[i - 1]; }
    }
    BorderFrom(s, |s|, a + 2);
  }

  lemma OtherEnd(value: string, text: string, a: nat)
    requires a < |value| && value[a] != NUL && |text| == a + 1 && text[a] == NUL
    ensures Longest(value, text) <= a
  {
    if Stands(value, text, a + 1) { StandsAt(value, text, a + 1, a); }
  }

  lemma LongSeparator(text: string) returns (separator: string)
    ensures separator != [] && Nuls(separator) && !Contains(text, separator)
  {
    separator := seq(|text| + 1, _ => NUL);
  }

  lemma {:induction false} LongestBorderExists(s: string, n: nat, k: nat) returns (longest: nat)
    requires n <= |s| && k < n && forall j: nat :: Border(s, n, j) ==> j <= k
    ensures LongestBorder(s, n, longest)
  {
    if k == 0 {
      assert s[..0] == s[n..n];
      longest := 0;
    } else if Border(s, n, k) {
      longest := k;
    } else {
      longest := LongestBorderExists(s, n, k - 1);
    }
  }

  lemma ReportExists(value: string, text: string) returns (length: nat)
    requires value != [] && text != []
    ensures Reports(value, text, length)
  {
    var m := Min(|value|, |text|);
    var prefix, suffix := value[..m], text[|text| - m..];
    var separator := LongSeparator(suffix);
    var s := prefix + separator + suffix;
    var longest := LongestBorderExists(s, |s|, |s| - 1);
    length := Min(longest, m);
    assert ReportsWith(value, text, separator, longest, length);
  }

  lemma {:induction false} FirstOf(value: string) returns (a: nat)
    requires !Findable(value)
    ensures 0 < a < |value| && value[a] != NUL && forall j :: 0 <= j < a ==> value[j] == NUL
  {
    var j :| 0 <= j < |value| && value[j] != NUL;
    a := FirstOther(value, j);
  }

  /** A value is searched for exactly in every text iff it has no NUL in front, or nothing but NULs. */
  lemma SearchExactIff(value: string)
    ensures (forall text, length :: Reports(value, text, length) ==> length == Longest(value, text)) <==> Findable(value)
  {
    if Findable(value) {
      forall text, length | Reports(value, text, length) ensures length == Longest(value, text) {
        if value != [] && text != [] {
          var separator, longest :| ReportsWith(value, text, separator, longest, length);
          ReportedBounds(value, text, separator, longest, length);
        }
      }
    } else {
      var a := FirstOf(value);
      var text := Misleading(value, a);
      var length := ReportExists(value, text);
      var separator, longest :| ReportsWith(value, text, separator, longest, length);
      MisleadingBorder(value, a, separator, longest, length);
      OtherEnd(value, text, a);
    }
  }
}
