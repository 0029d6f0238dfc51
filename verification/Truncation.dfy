/** Redaction of sensitive values that a truncation cut short. */
module Truncation {
  import opened TextSearch
  import opened PrefixSearch

  const MARKER := "\n...[truncated]"
  const REDACTION := "[REDACTED]"

  /** The starts of the markers, left to right. */
  function Markers(text: string, from: nat): seq<nat>
    decreases |text| - from
  {
    match Find(text, MARKER, from, |text|)
    case None => []
    case Some(i) => [i] + Markers(text, i + |MARKER|)
  }

  /** `max(..., default=0)` over the values. */
  function LongestOf(values: seq<string>, text: string): nat {
    if values == [] then 0
    else
      var rest := LongestOf(values[1..], text);
      var first := Longest(values[0], text);
      if first > rest then first else rest
  }

  function LongestLength(values: seq<string>): nat {
    if values == [] then 0
    else
      var rest := LongestLength(values[1..]);
      if |values[0]| > rest then |values[0]| else rest
  }

  /** No value holds a whole truncation marker. */
  predicate Unmarked(values: seq<string>) {
    forall v :: v in values ==> !Contains(v, MARKER)
  }

  ghost predicate HasMarker(text: string) {
    exists p: nat :: OccursAt(text, p, MARKER)
  }

  ghost predicate AtMarkers(text: string, idx: seq<nat>, from: nat) {
    forall i :: 0 <= i < |idx| ==> OccursAt(text, idx[i], MARKER) && idx[i] >= from
  }

  ghost predicate Ascending(idx: seq<nat>) {
    forall i, j :: 0 <= i < j < |idx| ==> idx[i] < idx[j]
  }

  ghost predicate Complete(text: string, idx: seq<nat>, from: nat) {
    forall q: nat :: OccursAt(text, q, MARKER) && q >= from ==> q in idx
  }

  ghost predicate Every(text: string, idx: seq<nat>, from: nat) {
    AtMarkers(text, idx, from) && Ascending(idx) && Complete(text, idx, from)
  }

  /** `idx` lists every marker of `text`, left to right. */
  ghost predicate Marked(text: string, idx: seq<nat>) {
    Every(text, idx, 0)
  }

  /** Where the piece before marker `i` starts: at the marker before. */
  function Start(idx: seq<nat>, i: nat): nat
    requires i <= |idx|
  {
    if i == 0 then 0 else idx[i - 1]
  }

  lemma OneNewline(text: string, q: nat, k: nat)
    requires OccursAt(text, q, MARKER) && k < |MARKER|
    ensures text[q + k] == '\n' <==> k == 0
  {
    OccursChar(text, q, MARKER, k);
  }

  lemma MarkersApart(text: string, q: nat, r: nat)
    requires OccursAt(text, q, MARKER) && OccursAt(text, r, MARKER) && q < r
    ensures q + |MARKER| <= r
  {
    if r < q + |MARKER| {
      OneNewline(text, q, r - q);
      OneNewline(text, r, 0);
    }
  }

  lemma OneMoreMarker(text: string, i: nat, rest: seq<nat>, from: nat)
    requires OccursAt(text, i, MARKER) && from <= i && Every(text, rest, i + |MARKER|)
    requires forall q: nat :: from <= q < i ==> !OccursAt(text, q, MARKER)
    ensures Every(text, [i] + rest, from)
  {
    forall q: nat | OccursAt(text, q, MARKER) && q >= from ensures q in [i] + rest {
      if q > i { MarkersApart(text, i, q); }
    }
  }

  lemma {:induction false} MarkersFrom(text: string, from: nat)
    ensures Every(text, Markers(text, from), from)
    decreases |text| - from
  {
    var first := Find(text, MARKER, from, |text|);
    if first.Some? {
      MarkersFrom(text, first.value + |MARKER|);
      OneMoreMarker(text, first.value, Markers(text, first.value + |MARKER|), from);
    }
  }

  lemma StartIs(text: string, idx: seq<nat>, i: nat)
    requires Marked(text, idx) && i <= |idx|
    ensures Start(idx, i) <= |text| && (i > 0 ==> Start(idx, i) < |text| && text[Start(idx, i)] == '\n')
    ensures i < |idx| ==> Start(idx, i) + (if i > 0 then 1 else 0) <= idx[i] <= |text|
  {
    if i > 0 { OneNewline(text, idx[i - 1], 0); }
  }

  lemma NoneBetween(text: string, idx: seq<nat>, i: nat, p: nat)
    requires Marked(text, idx) && i <= |idx| && Start(idx, i) + (if i > 0 then 1 else 0) <= p
    requires i < |idx| ==> p < idx[i]
    ensures !OccursAt(text, p, MARKER)
  {
    forall j | 0 <= j < |idx| ensures idx[j] != p {
      if i > 0 && j < i - 1 { assert idx[j] < idx[i - 1]; }
      if i < j { assert idx[i] < idx[j]; }
    }
  }

  // ----- prefixes do not reach over a whole marker

  function FirstMarker(v: string): nat
    requires Contains(v, MARKER)
  {
    Find(v, MARKER, 0, |v|).value
  }

  /** What the value has before the first marker in it does not end the text. */
  predicate Away(v: string, before: string) {
    Contains(v, MARKER) ==> !Stands(v, before, FirstMarker(v))
  }

  /** Nor does it end the text before any marker, for any value. */
  ghost predicate Clear(values: seq<string>, text: string) {
    forall q: nat, v :: OccursAt(text, q, MARKER) && v in values ==> Away(v, text[..q])
  }

  /** Some text that ends with a redaction ends with this, too. */
  predicate LikeRedaction(x: string) {
    if |x| <= |REDACTION| then REDACTION[|REDACTION| - |x|..] == x else x[|x| - |REDACTION|..] == REDACTION
  }

  /** A value that holds a marker, if any does, is far from this text: what it has before the marker stands before no
      marker of the text, and is nothing a redaction could end with. */
  ghost predicate Distant(text: string, values: seq<string>) {
    && Clear(values, text)
    && forall v :: v in values && Contains(v, MARKER) ==> !LikeRedaction(v[..FirstMarker(v)])
  }

  lemma UnmarkedIsDistant(text: string, values: seq<string>)
    requires Unmarked(values)
    ensures Distant(text, values)
  {
  }

  /** A prefix that covers a marker of the text holds it. */
  lemma CoveredIsHeld(v: string, text: string, k: nat, p: nat)
    requires Stands(v, text, k) && OccursAt(text, p, MARKER) && |text| - k <= p
    ensures OccursAt(v, p - (|text| - k), MARKER) && p - (|text| - k) + |MARKER| <= k
  {
    var n, i := |MARKER|, p - (|text| - k);
    SliceOfHead(v, k, i, n);
    SliceOfTail(text, |text| - k, i, n);
  }

  lemma SliceOfHead(s: string, k: nat, i: nat, n: nat)
    requires i + n <= k <= |s|
    ensures s[..k][i..i + n] == s[i..i + n]
  {
  }

  lemma SliceOfTail(s: string, k: nat, i: nat, n: nat)
    requires k <= |s| && k + i + n <= |s|
    ensures s[k..][i..i + n] == s[k + i..k + i + n]
  {
  }

  /** And what is before its first marker stands before a marker of the text. */
  lemma StandsCovers(v: string, text: string, k: nat, p: nat)
    requires Stands(v, text, k) && OccursAt(text, p, MARKER)
    ensures |text| - k <= p ==>
              (Contains(v, MARKER) &&
               var q := |text| - k + FirstMarker(v); OccursAt(text, q, MARKER) && Stands(v, text[..q], FirstMarker(v)))
  {
    if |text| - k <= p {
      CoveredIsHeld(v, text, k, p);
      CoversFirst(v, text, k, FirstMarker(v));
    }
  }

  lemma CoversFirst(v: string, text: string, k: nat, f: nat)
    requires Stands(v, text, k) && OccursAt(v, f, MARKER) && f + |MARKER| <= k
    ensures var q := |text| - k + f; OccursAt(text, q, MARKER) && Stands(v, text[..q], f)
  {
    var tail, q := text[|text| - k..], |text| - k + f;
    assert v[..k] == tail;
    assert text[q..q + |MARKER|] == tail[f..f + |MARKER|] == v[f..f + |MARKER|];
    assert text[..q][q - f..] == tail[..f] == v[..f];
  }

  lemma StandsInMore(v: string, a: string, b: string, k: nat)
    ensures Stands(v, b, k) ==> Stands(v, a + b, k)
  {
    if Stands(v, b, k) { assert (a + b)[|a + b| - k..] == b[|b| - k..]; }
  }

  lemma AwayInTail(v: string, a: string, b: string)
    requires Away(v, a + b)
    ensures Away(v, b)
  {
    if Contains(v, MARKER) { StandsInMore(v, a, b, FirstMarker(v)); }
  }

  lemma ClearInTail(values: seq<string>, a: string, b: string)
    requires Clear(values, a + b)
    ensures Clear(values, b)
  {
    forall q: nat, v | OccursAt(b, q, MARKER) && v in values ensures Away(v, b[..q]) {
      OccursInTail(a, b, q, MARKER);
      assert (a + b)[..|a| + q] == a + b[..q];
      AwayInTail(v, a, b[..q]);
    }
  }

  lemma ClearInHead(values: seq<string>, text: string, n: nat)
    requires Clear(values, text) && n <= |text|
    ensures Clear(values, text[..n])
  {
    forall q: nat, v | OccursAt(text[..n], q, MARKER) && v in values ensures Away(v, text[..n][..q]) {
      assert text[..n] + text[n..] == text && text[..n][..q] == text[..q];
      OccursInHead(text[..n], text[n..], q, MARKER);
    }
  }

  /** In a clear text no value's prefix covers a marker. */
  lemma NothingCovers(values: seq<string>, v: string, text: string, k: nat, p: nat)
    requires Clear(values, text) && v in values && Stands(v, text, k) && OccursAt(text, p, MARKER)
    ensures p < |text| - k
  {
    StandsCovers(v, text, k, p);
  }

  lemma StandsLocally(values: seq<string>, v: string, a: string, b: string, k: nat)
    requires Clear(values, a + b) && v in values && HasMarker(b)
    ensures Stands(v, a + b, k) <==> Stands(v, b, k)
    ensures Stands(v, b, k) ==> k < |b|
  {
    var p: nat :| OccursAt(b, p, MARKER);
    if k < |b| {
      assert (a + b)[|a + b| - k..] == b[|b| - k..];
    } else {
      OccursInTail(a, b, p, MARKER);
      ClearInTail(values, a, b);
      if Stands(v, a + b, k) { NothingCovers(values, v, a + b, k, |a| + p); }
      if Stands(v, b, k) { NothingCovers(values, v, b, k, p); }
    }
  }

  lemma LongestLocally(values: seq<string>, v: string, a: string, b: string)
    requires Clear(values, a + b) && v in values && HasMarker(b)
    ensures Longest(v, a + b) == Longest(v, b) < |b|
  {
    StandsLocally(values, v, a, b, Longest(v, a + b));
    StandsLocally(values, v, a, b, Longest(v, b));
  }

  lemma ClearForFewer(values: seq<string>, text: string)
    requires Clear(values, text) && values != []
    ensures Clear(values[1..], text)
  {
    forall q: nat, v | OccursAt(text, q, MARKER) && v in values[1..] ensures Away(v, text[..q]) {
      assert v in values;
    }
  }

  lemma {:induction false} LongestOfLocally(values: seq<string>, a: string, b: string)
    requires Clear(values, a + b) && HasMarker(b)
    ensures LongestOf(values, a + b) == LongestOf(values, b) < |b|
  {
    if values != [] {
      LongestLocally(values, values[0], a, b);
      ClearForFewer(values, a + b);
      LongestOfLocally(values[1..], a, b);
    } else {
      var p: nat :| OccursAt(b, p, MARKER);
    }
  }

  lemma {:induction false} LongestOfBound(values: seq<string>, text: string)
    ensures LongestOf(values, text) <= |text|
  {
    if values != [] { LongestOfBound(values[1..], text); }
  }

  /** How many characters are redacted before marker `i`. */
  function Cut(text: string, values: seq<string>, idx: seq<nat>, i: nat): nat
    requires i < |idx| && idx[i] <= |text|
  {
    LongestOf(values, text[..idx[i]])
  }

  lemma MarkerStays(text: string, q: nat, to: nat)
    requires OccursAt(text, q, MARKER) && q + |MARKER| <= to <= |text|
    ensures OccursAt(text[q..to], 0, MARKER)
  {
    assert text[q..to][..|MARKER|] == text[q..q + |MARKER|];
  }

  /** The text from a marker up to the next one holds a whole marker. */
  lemma PieceIsMarked(text: string, idx: seq<nat>, i: nat)
    requires Marked(text, idx) && 0 < i < |idx|
    ensures Start(idx, i) <= idx[i] <= |text| && OccursAt(text[Start(idx, i)..idx[i]], 0, MARKER)
  {
    MarkersApart(text, idx[i - 1], idx[i]);
    MarkerStays(text, idx[i - 1], idx[i]);
  }

  /** The redaction before a marker does not reach the start of the marker before. */
  lemma StaysBehind(text: string, values: seq<string>, idx: seq<nat>, i: nat)
    requires Marked(text, idx) && i < |idx| && Distant(text, values)
    ensures Start(idx, i) <= idx[i] <= |text|
    ensures Start(idx, i) + Cut(text, values, idx, i) + (if i > 0 then 1 else 0) <= idx[i]
    ensures LongestOf(values, text[Start(idx, i)..idx[i]]) == Cut(text, values, idx, i)
  {
    StartIs(text, idx, i);
    var from := Start(idx, i);
    assert text[..idx[i]] == text[..from] + text[from..idx[i]];
    if i > 0 {
      PieceIsMarked(text, idx, i);
      ClearInHead(values, text, idx[i]);
      LongestOfLocally(values, text[..from], text[from..idx[i]]);
    } else {
      LongestOfBound(values, text[..idx[0]]);
    }
  }

  // ----- what the redaction is meant to give

  function Patch(redacted: bool): string {
    if redacted then REDACTION else ""
  }

  /** The piece of the text up to `m`, with the `l` characters at its end redacted. */
  function Kept(text: string, from: nat, m: nat, l: nat): string
    requires from + l <= m <= |text|
  {
    text[from..m - l] + Patch(l > 0)
  }

  /** The text from the marker before marker `i` on, with the longest sensitive prefix before each marker replaced. */
  ghost function Redacted(text: string, values: seq<string>, idx: seq<nat>, i: nat): (r: string)
    requires Marked(text, idx) && Distant(text, values) && i <= |idx|
    ensures i > 0 ==> r != [] && r[0] == '\n'
    decreases |idx| - i
  {
    StartIs(text, idx, i);
    if i == |idx| then text[Start(idx, i)..]
    else
      StaysBehind(text, values, idx, i);
      Kept(text, Start(idx, i), idx[i], Cut(text, values, idx, i)) + Redacted(text, values, idx, i + 1)
  }

  predicate EndsRedacted(before: string) {
    |REDACTION| <= |before| && before[|before| - |REDACTION|..] == REDACTION
  }

  /** Nothing sensitive is left at the end: it was redacted, or no value has a prefix there. */
  predicate Safe(values: seq<string>, before: string) {
    EndsRedacted(before) || LongestOf(values, before) == 0
  }

  /** The same, and whatever is put in front: it was redacted, or a whole marker stands between. */
  ghost predicate SafeBehind(values: seq<string>, before: string) {
    EndsRedacted(before) || (LongestOf(values, before) == 0 && HasMarker(before))
  }

  lemma SafeLocally(values: seq<string>, a: string, b: string)
    requires Clear(values, a + b) && SafeBehind(values, b)
    ensures Safe(values, a + b) && SafeBehind(values, a + b)
  {
    if EndsRedacted(b) {
      assert (a + b)[|a + b| - |REDACTION|..] == b[|b| - |REDACTION|..];
    } else {
      LongestOfLocally(values, a, b);
      var p: nat :| OccursAt(b, p, MARKER);
      OccursInTail(a, b, p, MARKER);
    }
  }

  /** A marker does not overlap a redaction, nor the newline after it. */
  lemma NoStraddle(a: string, redacted: bool, b: string, q: nat)
    requires b != [] && b[0] == '\n'
    requires OccursAt(a + Patch(redacted) + b, q, MARKER) && q < |a + Patch(redacted)|
    ensures q + |MARKER| <= |a|
  {
    var r := Patch(redacted);
    var t := a + r + b;
    assert t[|a + r|] == b[0];
    assert forall k: nat :: k < |r| ==> t[|a| + k] == r[k];
    if |a| < q + |MARKER| {
      if !redacted {
        OneNewline(t, q, |a| - q);
      } else if q > |a| {
        OneNewline(t, q, 0);
      } else {
        OccursChar(t, q, MARKER, |a| - q);
        if |a| + 1 < q + |MARKER| { OccursChar(t, q, MARKER, |a| + 1 - q); }
      }
    }
  }

  lemma OccursInside(text: string, from: nat, to: nat, rest: string, q: nat)
    requires from <= to <= |text| && q + |MARKER| <= to - from
    ensures OccursAt(text[from..to] + rest, q, MARKER) <==> OccursAt(text, from + q, MARKER)
  {
    OccursInHead(text[from..to], rest, q, MARKER);
    OccursInTail(text[..from], text[from..to], q, MARKER);
    assert text[..from] + text[from..to] == text[..to];
    OccursInHead(text[..to], text[to..], from + q, MARKER);
    assert text[..to] + text[to..] == text;
  }

  /** There is no marker before marker `i`, whatever is redacted there. */
  lemma NoMarkerInHead(text: string, idx: seq<nat>, i: nat, to: nat, redacted: bool, b: string, q: nat)
    requires Marked(text, idx) && i < |idx| && (i > 0 ==> q > 0)
    requires Start(idx, i) <= to <= idx[i] <= |text| && b != [] && b[0] == '\n'
    requires q < |text[Start(idx, i)..to] + Patch(redacted)|
    ensures !OccursAt(text[Start(idx, i)..to] + Patch(redacted) + b, q, MARKER)
  {
    var from := Start(idx, i);
    var a := text[from..to];
    if OccursAt(a + Patch(redacted) + b, q, MARKER) {
      NoStraddle(a, redacted, b, q);
      assert a + Patch(redacted) + b == a + (Patch(redacted) + b);
      OccursInside(text, from, to, Patch(redacted) + b, q);
      NoneBetween(text, idx, i, from + q);
    }
  }

  lemma HeadIsSafe(values: seq<string>, a: string, redacted: bool)
    requires redacted || LongestOf(values, a) == 0
    ensures Safe(values, a + Patch(redacted))
    ensures redacted || HasMarker(a) ==> SafeBehind(values, a + Patch(redacted))
  {
    if redacted { assert (a + REDACTION)[|a|..] == REDACTION; } else { assert a + "" == a; }
  }

  /** The result up to `q`, where `h` is what it begins with and `b` the rest. */
  lemma PieceIsSafe(values: seq<string>, h: string, b: string, q: nat, behind: bool)
    requires Clear(values, h + b) && |h| <= q <= |h + b|
    requires Safe(values, h) && (behind ==> SafeBehind(values, h)) && (q > |h| ==> SafeBehind(values, b[..q - |h|]))
    ensures Safe(values, (h + b)[..q]) && (behind ==> SafeBehind(values, (h + b)[..q]))
  {
    assert (h + b)[..q] == h + b[..q - |h|];
    ClearInHead(values, h + b, q);
    if q > |h| { SafeLocally(values, h, b[..q - |h|]); } else { assert (h + b)[..q] == h; }
  }

  lemma OccursBehind(h: string, b: string, q: nat)
    requires OccursAt(h + b, q, MARKER) && q >= |h|
    ensures OccursAt(b, q - |h|, MARKER)
  {
    OccursInTail(h, b, q - |h|, MARKER);
  }

  /** No marker stands in the rest of the text after the last one. */
  lemma NoneAfterLast(text: string, idx: seq<nat>, q: nat)
    requires Marked(text, idx) && (idx != [] ==> q > 0) && Start(idx, |idx|) <= |text|
    ensures !OccursAt(text[Start(idx, |idx|)..], q, MARKER)
  {
    var from := Start(idx, |idx|);
    assert text[..from] + text[from..] == text;
    OccursInTail(text[..from], text[from..], q, MARKER);
    NoneBetween(text, idx, |idx|, from + q);
  }

  lemma PartIsSafe(text: string, values: seq<string>, from: nat, m: nat, l: nat)
    requires from + l <= m <= |text| && l == LongestOf(values, text[from..m])
    ensures Safe(values, Kept(text, from, m, l))
    ensures HasMarker(text[from..m]) ==> SafeBehind(values, Kept(text, from, m, l))
  {
    var a := text[from..m - l];
    if l == 0 { assert a == text[from..m]; }
    HeadIsSafe(values, a, l > 0);
  }

  lemma FirstIsBehind(text: string, idx: seq<nat>, i: nat, l: nat, b: string, q: nat)
    requires Marked(text, idx) && i < |idx| && (i > 0 ==> q > 0)
    requires Start(idx, i) + l <= idx[i] <= |text| && b != [] && b[0] == '\n'
    ensures var h := Kept(text, Start(idx, i), idx[i], l); OccursAt(h + b, q, MARKER) ==> |h| <= q
  {
    if q < |Kept(text, Start(idx, i), idx[i], l)| { NoMarkerInHead(text, idx, i, idx[i] - l, l > 0, b, q); }
  }

  /** One step back over a marker. */
  lemma StepIsSafe(values: seq<string>, h: string, b: string, q: nat, behind: bool)
    requires Clear(values, h + b) && Safe(values, h) && (behind ==> SafeBehind(values, h))
    requires OccursAt(h + b, q, MARKER) && |h| <= q
    requires q > |h| && OccursAt(b, q - |h|, MARKER) ==> SafeBehind(values, b[..q - |h|])
    ensures Safe(values, (h + b)[..q]) && (behind ==> SafeBehind(values, (h + b)[..q]))
  {
    OccursBehind(h, b, q);
    PieceIsSafe(values, h, b, q, behind);
  }

  // ----- the result is clear as well

  /** Whatever is put in front. */
  ghost predicate AwayBehind(values: seq<string>, before: string) {
    EndsRedacted(before) || (HasMarker(before) && forall v :: v in values ==> Away(v, before))
  }

  lemma StandsLikeRedaction(v: string, before: string, k: nat)
    requires EndsRedacted(before) && k <= |v|
    ensures Stands(v, before, k) ==> LikeRedaction(v[..k])
  {
    if Stands(v, before, k) {
      var x := v[..k];
      assert x == before[|before| - k..];
      if k <= |REDACTION| {
        assert x == before[|before| - |REDACTION|..][|REDACTION| - k..];
      } else {
        assert x[k - |REDACTION|..] == before[|before| - |REDACTION|..];
      }
    }
  }

  lemma NotLikeRedaction(v: string, before: string)
    requires EndsRedacted(before) && (Contains(v, MARKER) ==> !LikeRedaction(v[..FirstMarker(v)]))
    ensures Away(v, before)
  {
    if Contains(v, MARKER) { StandsLikeRedaction(v, before, FirstMarker(v)); }
  }

  /** What is before a value's first marker does not reach back over a marker. */
  lemma FirstStandsLocally(v: string, a: string, b: string, f: nat)
    requires HasMarker(b) && f <= |v| && forall i: nat :: i < f ==> !OccursAt(v, i, MARKER)
    ensures Stands(v, a + b, f) ==> Stands(v, b, f)
  {
    var p: nat :| OccursAt(b, p, MARKER);
    OccursInTail(a, b, p, MARKER);
    if Stands(v, a + b, f) {
      if f > |b| {
        CoveredIsHeld(v, a + b, f, |a| + p);
        assert false;
      }
      assert (a + b)[|a + b| - f..] == b[|b| - f..];
    }
  }

  lemma AwayLocally(v: string, a: string, b: string)
    requires HasMarker(b) && Away(v, b)
    ensures Away(v, a + b)
  {
    if Contains(v, MARKER) { FirstStandsLocally(v, a, b, FirstMarker(v)); }
  }

  lemma RedactedLocally(a: string, b: string)
    requires EndsRedacted(b)
    ensures EndsRedacted(a + b)
  {
    assert (a + b)[|a + b| - |REDACTION|..] == b[|b| - |REDACTION|..];
  }

  lemma MarkerLocally(a: string, b: string)
    requires HasMarker(b)
    ensures HasMarker(a + b)
  {
    var p: nat :| OccursAt(b, p, MARKER);
    OccursInTail(a, b, p, MARKER);
  }

  /** What is away behind a part is away behind it in the whole. */
  lemma AwayBehindMore(text: string, values: seq<string>, a: string, b: string)
    requires Distant(text, values) && AwayBehind(values, b)
    ensures AwayBehind(values, a + b) && forall v :: v in values ==> Away(v, a + b)
  {
    if EndsRedacted(b) {
      RedactedLocally(a, b);
      forall v | v in values ensures Away(v, a + b) { NotLikeRedaction(v, a + b); }
    } else {
      MarkerLocally(a, b);
      forall v | v in values ensures Away(v, a + b) { AwayLocally(v, a, b); }
    }
  }

  /** One piece of the text, redacted or not. */
  lemma KeptIsAway(text: string, values: seq<string>, from: nat, m: nat, l: nat)
    requires Distant(text, values) && from + l <= m <= |text| && OccursAt(text, m, MARKER)
    ensures var h := Kept(text, from, m, l);
            && (forall v :: v in values ==> Away(v, h))
            && (l > 0 || HasMarker(text[from..m]) ==> AwayBehind(values, h))
  {
    var h := Kept(text, from, m, l);
    if l > 0 {
      assert h[|h| - |REDACTION|..] == REDACTION;
      forall v | v in values ensures Away(v, h) { NotLikeRedaction(v, h); }
    } else {
      assert h == text[from..m] && text[..m] == text[..from] + h;
      forall v | v in values ensures Away(v, h) { AwayInTail(v, text[..from], h); }
    }
  }

  lemma {:induction false} RedactedIsAway(text: string, values: seq<string>, idx: seq<nat>, i: nat, q: nat)
    requires Marked(text, idx) && Distant(text, values) && i <= |idx| && (i > 0 ==> q > 0)
    requires OccursAt(Redacted(text, values, idx, i), q, MARKER)
    ensures forall v :: v in values ==> Away(v, Redacted(text, values, idx, i)[..q])
    ensures i > 0 ==> AwayBehind(values, Redacted(text, values, idx, i)[..q])
    decreases |idx| - i
  {
    if i == |idx| {
      StartIs(text, idx, i);
      NoneAfterLast(text, idx, q);
    } else {
      StaysBehind(text, values, idx, i);
      var l, b := Cut(text, values, idx, i), Redacted(text, values, idx, i + 1);
      var h := Kept(text, Start(idx, i), idx[i], l);
      if i > 0 { PieceIsMarked(text, idx, i); }
      FirstIsBehind(text, idx, i, l, b, q);
      if q == |h| {
        KeptIsAway(text, values, Start(idx, i), idx[i], l);
        assert (h + b)[..q] == h;
      } else {
        OccursBehind(h, b, q);
        RedactedIsAway(text, values, idx, i + 1, q - |h|);
        assert (h + b)[..q] == h + b[..q - |h|];
        AwayBehindMore(text, values, h, b[..q - |h|]);
      }
    }
  }

  /** Where the text has a marker, no value begins with one. */
  lemma NotAtStart(text: string, values: seq<string>, q: nat, v: string)
    requires Distant(text, values) && OccursAt(text, q, MARKER) && v in values
    ensures Away(v, "")
  {
    assert Away(v, text[..q]);
    assert text[..q][q..] == "";
  }

  lemma RedactedIsClear(text: string, values: seq<string>, idx: seq<nat>, i: nat)
    requires Marked(text, idx) && Distant(text, values) && i <= |idx|
    ensures Clear(values, Redacted(text, values, idx, i))
  {
    var r := Redacted(text, values, idx, i);
    forall q: nat, v | OccursAt(r, q, MARKER) && v in values ensures Away(v, r[..q]) {
      if i > 0 && q == 0 {
        assert OccursAt(text, idx[0], MARKER);
        NotAtStart(text, values, idx[0], v);
      } else {
        RedactedIsAway(text, values, idx, i, q);
      }
    }
  }

  /** Before every truncation marker of the result there is a redaction, or no prefix of a sensitive value. */
  lemma {:induction false} RedactedIsSafe(text: string, values: seq<string>, idx: seq<nat>, i: nat, q: nat)
    requires Marked(text, idx) && Distant(text, values) && i <= |idx| && (i > 0 ==> q > 0)
    requires OccursAt(Redacted(text, values, idx, i), q, MARKER)
    ensures Safe(values, Redacted(text, values, idx, i)[..q])
    ensures i > 0 ==> SafeBehind(values, Redacted(text, values, idx, i)[..q])
    decreases |idx| - i
  {
    if i == |idx| {
      StartIs(text, idx, i);
      NoneAfterLast(text, idx, q);
    } else {
      StaysBehind(text, values, idx, i);
      var l, b := Cut(text, values, idx, i), Redacted(text, values, idx, i + 1);
      var h := Kept(text, Start(idx, i), idx[i], l);
      if i > 0 { PieceIsMarked(text, idx, i); }
      PartIsSafe(text, values, Start(idx, i), idx[i], l);
      FirstIsBehind(text, idx, i, l, b, q);
      RedactedIsClear(text, values, idx, i);
      if q > |h| && OccursAt(b, q - |h|, MARKER) { RedactedIsSafe(text, values, idx, i + 1, q - |h|); }
      StepIsSafe(values, h, b, q, i > 0);
    }
  }

  // ----- the loop over the markers, last to first

  /** A Python slice with non-negative bounds. */
  function Slice(s: string, a: nat, b: nat): (r: string)
    ensures a <= b <= |s| ==> r == s[a..b]
    ensures a <= b ==> |r| <= b - a
  {
    if a >= |s| || a >= b then "" else s[a..Min(b, |s|)]
  }

  /** The search finds every value exactly: none has a NUL in front, as the values of an environment never do. */
  predicate AllFindable(values: seq<string>) {
    forall v :: v in values ==> Findable(v)
  }

  method LongestAmong(values: seq<string>, preceding: string) returns (length: nat)
    ensures LongestOf(values, preceding) <= length <= |preceding|
    ensures AllFindable(values) ==> length == LongestOf(values, preceding)
  {
    length := 0;
    var i := |values|;
    while i > 0
      invariant 0 <= i <= |values|
      invariant LongestOf(values[i..], preceding) <= length <= |preceding|
      invariant AllFindable(values) ==> length == LongestOf(values[i..], preceding)
    {
      i := i - 1;
      assert values[i..][1..] == values[i + 1..] && values[i] in values;
      var one := LongestPrefixAtEnd(values[i], preceding);
      length := if one > length then one else length;
    }
  }

  lemma SuffixStands(v: string, text: string, w: nat, k: nat)
    requires w <= |text| && k <= |text| - w
    ensures Stands(v, text[w..], k) <==> Stands(v, text, k)
  {
    assert text[w..][|text[w..]| - k..] == text[|text| - k..];
  }

  lemma WindowStands(v: string, text: string, size: nat)
    requires |v| <= size
    ensures Longest(v, text[if |text| > size then |text| - size else 0..]) == Longest(v, text)
  {
    var w := if |text| > size then |text| - size else 0;
    SuffixStands(v, text, w, Longest(v, text[w..]));
    SuffixStands(v, text, w, Longest(v, text));
  }

  lemma {:induction false} WindowSuffices(values: seq<string>, text: string, size: nat)
    requires LongestLength(values) <= size
    ensures LongestOf(values, text[if |text| > size then |text| - size else 0..]) == LongestOf(values, text)
  {
    if values != [] {
      WindowStands(values[0], text, size);
      WindowSuffices(values[1..], text, size);
    }
  }

  /** From marker `i` on, the text is done; before it, untouched. */
  ghost predicate DoneFrom(text: string, values: seq<string>, idx: seq<nat>, i: nat, t: string) {
    && Distant(text, values) && Marked(text, idx) && i <= |idx| && Start(idx, i) <= |text|
    && t == text[..Start(idx, i)] + Redacted(text, values, idx, i)
  }

  lemma DoneEnd(text: string, values: seq<string>, idx: seq<nat>, n: nat)
    requires Distant(text, values) && Marked(text, idx) && n == Start(idx, |idx|)
    ensures DoneFrom(text, values, idx, |idx|, text)
  {
    StartIs(text, idx, |idx|);
    assert text[..n] + text[n..] == text;
  }

  /** The text with the `l` characters before `m` redacted. */
  function RedactBefore(t: string, m: nat, l: nat): string
    requires l <= m
  {
    if l > 0 then Slice(t, 0, m - l) + REDACTION + Slice(t, m, |t|) else t
  }

  lemma Regrouped(a: string, b: string, c: string)
    ensures a + b + c == a + (b + c)
  {
  }

  lemma Uncut(text: string, from: nat, m: nat, b: string)
    requires from <= m <= |text|
    ensures text[..m] + b == text[..from] + (text[from..m] + b)
  {
    assert text[..m] == text[..from] + text[from..m];
  }

  lemma HeadOf(text: string, t: string, n: nat, m: nat, b: string)
    requires n <= m <= |text| && t == text[..m] + b
    ensures m <= |t| && t[..n] == text[..n] && t[m..] == b
  {
  }

  lemma Patched(text: string, t: string, from: nat, m: nat, l: nat, b: string)
    requires from + l <= m <= |text| && t == text[..m] + b && l > 0
    ensures RedactBefore(t, m, l) == text[..from] + (text[from..m - l] + (REDACTION + b))
  {
    HeadOf(text, t, m - l, m, b);
    Regrouped(text[..m - l], REDACTION, b);
    Uncut(text, from, m - l, REDACTION + b);
  }

  lemma Restored(text: string, t: string, from: nat, m: nat, l: nat, b: string, r: string)
    requires from + l <= m <= |text| && t == text[..m] + b && r == Kept(text, from, m, l) + b
    ensures RedactBefore(t, m, l) == text[..from] + r
  {
    if l == 0 {
      Uncut(text, from, m, b);
      assert Kept(text, from, m, l) == text[from..m];
    } else {
      Regrouped(text[from..m - l], REDACTION, b);
      Patched(text, t, from, m, l, b);
    }
  }

  lemma DoneStep(text: string, values: seq<string>, idx: seq<nat>, i: nat, t: string)
    requires i < |idx| && DoneFrom(text, values, idx, i + 1, t)
    ensures Cut(text, values, idx, i) <= idx[i]
    ensures DoneFrom(text, values, idx, i, RedactBefore(t, idx[i], Cut(text, values, idx, i)))
  {
    StartIs(text, idx, i);
    StaysBehind(text, values, idx, i);
    Restored(text, t, Start(idx, i), idx[i], Cut(text, values, idx, i), Redacted(text, values, idx, i + 1),
             Redacted(text, values, idx, i));
  }

  lemma SliceOfWindow(text: string, t: string, m: nat, windowStart: nat)
    requires windowStart <= m <= |t| && m <= |text| && t[..m] == text[..m]
    ensures Slice(t, windowStart, m) == text[..m][windowStart..]
  {
    assert t[windowStart..m] == t[..m][windowStart..];
  }

  lemma WindowOfHead(values: seq<string>, head: string, size: nat, windowStart: nat)
    requires size == LongestLength(values) && windowStart == if |head| > size then |head| - size else 0
    ensures LongestOf(values, head[windowStart..]) == LongestOf(values, head)
  {
    WindowSuffices(values, head, size);
  }

  lemma WindowOf(text: string, t: string, values: seq<string>, m: nat, windowStart: nat)
    requires m <= |t| && m <= |text| && t[..m] == text[..m]
    requires windowStart == if m > LongestLength(values) then m - LongestLength(values) else 0
    ensures LongestOf(values, Slice(t, windowStart, m)) == LongestOf(values, text[..m])
  {
    SliceOfWindow(text, t, m, windowStart);
    WindowOfHead(values, text[..m], LongestLength(values), windowStart);
  }

  /** One round of the loop. */
  lemma Round(text: string, values: seq<string>, idx: seq<nat>, i: nat, t: string, windowStart: nat, length: nat)
    requires i < |idx| && DoneFrom(text, values, idx, i + 1, t)
    requires windowStart == if idx[i] > LongestLength(values) then idx[i] - LongestLength(values) else 0
    requires length == LongestOf(values, Slice(t, windowStart, idx[i]))
    ensures length <= idx[i] && DoneFrom(text, values, idx, i, RedactBefore(t, idx[i], length))
  {
    WindowOf(text, t, values, idx[i], windowStart);
    DoneStep(text, values, idx, i, t);
  }

  /** The text once the markers from `i` on were dealt with, each at the index it had at the start. */
  function AfterMarkers(text: string, values: seq<string>, idx: seq<nat>, i: nat): string
    requires i <= |idx|
    decreases |idx| - i
  {
    if i == |idx| then text else
      var t, m := AfterMarkers(text, values, idx, i + 1), idx[i];
      var size := LongestLength(values);
      var preceding := Slice(t, if m > size then m - size else 0, m);
      var length := LongestOf(values, preceding);
      if length <= m then RedactBefore(t, m, length) else t
  }

  lemma OneMarker(text: string, values: seq<string>, idx: seq<nat>, i: nat, t: string, windowStart: nat, length: nat)
    requires i < |idx| && t == AfterMarkers(text, values, idx, i + 1)
    requires windowStart == if idx[i] > LongestLength(values) then idx[i] - LongestLength(values) else 0
    requires length == LongestOf(values, Slice(t, windowStart, idx[i])) && length <= idx[i]
    ensures AfterMarkers(text, values, idx, i) == RedactBefore(t, idx[i], length)
  {
  }

  /** `_redact_truncated_sensitive_prefixes`. */
  method RedactTruncatedPrefixes(text: string, values: seq<string>) returns (out: string)
    ensures AllFindable(values) ==> out == AfterMarkers(text, values, Markers(text, 0), 0)
  {
    var indexes := Markers(text, 0);
    var size := LongestLength(values);
    out := text;
    var i := |indexes|;
    while i > 0
      invariant 0 <= i <= |indexes|
      invariant AllFindable(values) ==> out == AfterMarkers(text, values, indexes, i)
    {
      i := i - 1;
      var m := indexes[i];
      var windowStart := if m > size then m - size else 0;
      var preceding := Slice(out, windowStart, m);
      var length := LongestAmong(values, preceding);
      if AllFindable(values) { OneMarker(text, values, indexes, i, out, windowStart, length); }
      out := RedactBefore(out, m, length);
    }
  }

  // ----- when the values that hold a marker are far from the text

  lemma {:induction false} LoopIsDone(text: string, values: seq<string>, idx: seq<nat>, i: nat)
    requires Distant(text, values) && Marked(text, idx) && i <= |idx|
    ensures DoneFrom(text, values, idx, i, AfterMarkers(text, values, idx, i))
    decreases |idx| - i
  {
    if i == |idx| {
      DoneEnd(text, values, idx, Start(idx, |idx|));
    } else {
      LoopIsDone(text, values, idx, i + 1);
      RoundIsDone(text, values, idx, i, AfterMarkers(text, values, idx, i + 1),
                  if idx[i] > LongestLength(values) then idx[i] - LongestLength(values) else 0);
    }
  }

  lemma RoundIsDone(text: string, values: seq<string>, idx: seq<nat>, i: nat, t: string, windowStart: nat)
    requires i < |idx| && DoneFrom(text, values, idx, i + 1, t) && t == AfterMarkers(text, values, idx, i + 1)
    requires windowStart == if idx[i] > LongestLength(values) then idx[i] - LongestLength(values) else 0
    ensures DoneFrom(text, values, idx, i, AfterMarkers(text, values, idx, i))
  {
    var length := LongestOf(values, Slice(t, windowStart, idx[i]));
    Round(text, values, idx, i, t, windowStart, length);
    OneMarker(text, values, idx, i, t, windowStart, length);
  }

  /** The loop gives the text, left to right, with the longest sensitive prefix before each of its markers replaced. */
  lemma LoopIsRedacted(text: string, values: seq<string>)
    requires Distant(text, values)
    ensures Marked(text, Markers(text, 0))
    ensures AfterMarkers(text, values, Markers(text, 0), 0) == Redacted(text, values, Markers(text, 0), 0)
  {
    MarkersFrom(text, 0);
    LoopIsDone(text, values, Markers(text, 0), 0);
    assert text[..0] + Redacted(text, values, Markers(text, 0), 0) == Redacted(text, values, Markers(text, 0), 0);
  }

  /** No truncated sensitive prefix is left before a marker: whatever the text, when no value holds a marker, and in a
      text from which those that do are far. */
  lemma NoPrefixBeforeMarkers(text: string, values: seq<string>, q: nat)
    requires Unmarked(values) || Distant(text, values)
    ensures var out := AfterMarkers(text, values, Markers(text, 0), 0); OccursAt(out, q, MARKER) ==> Safe(values, out[..q])
  {
    if Unmarked(values) { UnmarkedIsDistant(text, values); }
    LoopIsRedacted(text, values);
    if OccursAt(Redacted(text, values, Markers(text, 0), 0), q, MARKER) {
      RedactedIsSafe(text, values, Markers(text, 0), 0, q);
    }
  }

  // ----- a value that holds a marker

  lemma {:induction false} LongestOfAtLeast(values: seq<string>, i: nat, text: string, k: nat)
    requires i < |values| && Stands(values[i], text, k)
    ensures LongestOf(values, text) >= k
  {
    if i > 0 { LongestOfAtLeast(values[1..], i - 1, text, k); }
  }

  /** What is redacted before marker `i` leaves the start of the marker before it. */
  ghost predicate LeavesStart(text: string, values: seq<string>, idx: seq<nat>, i: nat)
    requires 0 < i < |idx|
  {
    idx[i] <= |text| && idx[i - 1] + Cut(text, values, idx, i) < idx[i]
  }

  lemma MarkedReaches(text: string, values: seq<string>, k: nat, head: string, p: nat)
    requires k < |values| && head <= values[k] && |head| == p + |MARKER| && OccursAt(head, p, MARKER)
    requires text == head + MARKER
    ensures exists i :: 0 < i < |Markers(text, 0)| && !LeavesStart(text, values, Markers(text, 0), i)
  {
    var idx := Markers(text, 0);
    MarkersFrom(text, 0);
    OccursInHead(head, MARKER, p, MARKER);
    OccursInTail(head, MARKER, 0, MARKER);
    var j :| 0 <= j < |idx| && idx[j] == p;
    var i :| 0 <= i < |idx| && idx[i] == |head|;
    assert j < i;
    assert text[..|head|] == head;
    LongestOfAtLeast(values, k, head, |head|);
    assert !LeavesStart(text, values, idx, i);
  }

  lemma MarkedValueReaches(values: seq<string>, k: nat)
    requires k < |values| && Contains(values[k], MARKER)
    ensures exists text, i :: 0 < i < |Markers(text, 0)| && !LeavesStart(text, values, Markers(text, 0), i)
  {
    var v := values[k];
    var p := Find(v, MARKER, 0, |v|).value;
    var head := v[..p + |MARKER|];
    assert head[p..p + |MARKER|] == v[p..p + |MARKER|];
    MarkedReaches(head + MARKER, values, k, head, p);
  }

  /** The redactions stay apart, in every text, iff no value holds a whole marker. */
  lemma StaysBehindIff(values: seq<string>)
    ensures (forall text, i :: 0 < i < |Markers(text, 0)| ==> LeavesStart(text, values, Markers(text, 0), i)) <==>
            Unmarked(values)
  {
    if Unmarked(values) {
      forall text, i | 0 < i < |Markers(text, 0)| ensures LeavesStart(text, values, Markers(text, 0), i) {
        MarkersFrom(text, 0);
        UnmarkedIsDistant(text, values);
        StaysBehind(text, values, Markers(text, 0), i);
      }
    } else {
      var k :| 0 <= k < |values| && Contains(values[k], MARKER);
      MarkedValueReaches(values, k);
    }
  }

  function MarkedValues(): seq<string> {
    ["A" + MARKER + "BC", "[q", "]z"]
  }

  /** The first value cut short, behind the marker in it. */
  function CutText(): string {
    "A" + MARKER + "B" + MARKER
  }

  lemma NextMarker(text: string, from: nat, p: nat)
    requires from <= p && OccursAt(text, p, MARKER) && forall j: nat :: from <= j < p ==> text[j] != '\n'
    ensures Markers(text, from) == [p] + Markers(text, p + |MARKER|)
  {
    var first := Find(text, MARKER, from, |text|);
    if first.Some? && first.value != p { OneNewline(text, first.value, 0); }
  }

  lemma NoMoreMarkers(text: string)
    ensures Markers(text, |text|) == []
  {
  }

  lemma TwoMarkers(text: string, p: nat, q: nat)
    requires p + |MARKER| <= q && q + |MARKER| == |text| && OccursAt(text, p, MARKER) && OccursAt(text, q, MARKER)
    requires forall j: nat :: j < p || p + |MARKER| <= j < q ==> text[j] != '\n'
    ensures Markers(text, 0) == [p, q]
  {
    NextMarker(text, 0, p);
    NextMarker(text, p + |MARKER|, q);
    NoMoreMarkers(text);
  }

  lemma MarkersOfCut()
    ensures Markers(CutText(), 0) == [1, 17]
  {
    var text := CutText();
    assert text == "A" + (MARKER + "B" + MARKER) && text == "A" + MARKER + "B" + MARKER;
    OccursInHead(MARKER, "B" + MARKER, 0, MARKER);
    OccursInTail("A", MARKER + "B" + MARKER, 0, MARKER);
    OccursInTail("A" + MARKER + "B", MARKER, 0, MARKER);
    TwoMarkers(text, 1, 17);
  }

  lemma FirstCut()
    ensures LongestOf(MarkedValues(), CutText()[..17]) == 17
  {
    var before := CutText()[..17];
    assert before == "A" + MARKER + "B" && MarkedValues()[0] == before + "C";
    LongestOfAtLeast(MarkedValues(), 0, before, 17);
    LongestOfBound(MarkedValues(), before);
  }

  lemma SecondCut()
    ensures LongestOf(MarkedValues(), "[") == 1
  {
    LongestOfAtLeast(MarkedValues(), 1, "[", 1);
    LongestOfBound(MarkedValues(), "[");
  }

  lemma CutIs(t: string, m: nat, l: nat)
    requires 0 < l <= m <= |t|
    ensures RedactBefore(t, m, l) == t[..m - l] + REDACTION + t[m..]
  {
  }

  /** One round of the loop that finds `l` characters to redact. */
  lemma CutRound(text: string, values: seq<string>, idx: seq<nat>, i: nat, t: string, l: nat, windowStart: nat)
    requires i < |idx| && t == AfterMarkers(text, values, idx, i + 1) && idx[i] <= |t|
    requires windowStart == if idx[i] > LongestLength(values) then idx[i] - LongestLength(values) else 0
    requires l == LongestOf(values, t[..idx[i]])
    ensures l <= idx[i] && AfterMarkers(text, values, idx, i) == RedactBefore(t, idx[i], l)
  {
    LongestOfBound(values, t[..idx[i]]);
    WindowOf(t, t, values, idx[i], windowStart);
    OneMarker(text, values, idx, i, t, windowStart, l);
  }

  lemma CutToStart(text: string, values: seq<string>, idx: seq<nat>, i: nat, t: string, m: nat)
    requires i < |idx| && t == AfterMarkers(text, values, idx, i + 1) && m == idx[i] <= |t|
    requires 0 < m == LongestOf(values, t[..m])
    ensures AfterMarkers(text, values, idx, i) == REDACTION + t[m..]
  {
    CutRound(text, values, idx, i, t, m, if m > LongestLength(values) then m - LongestLength(values) else 0);
    CutIs(t, m, m);
    assert t[..0] + REDACTION == REDACTION;
  }

  lemma TwoCuts(text: string, values: seq<string>, idx: seq<nat>, m: nat, t: string, p: nat)
    requires |idx| == 2 && m == idx[1] <= |text| && 0 < m == LongestOf(values, text[..m])
    requires t == REDACTION + text[m..] && p == idx[0] <= |t| && 0 < p == LongestOf(values, t[..p])
    ensures AfterMarkers(text, values, idx, 0) == REDACTION + t[p..]
  {
    CutToStart(text, values, idx, 1, text, m);
    CutToStart(text, values, idx, 0, t, p);
  }

  lemma CutPieces()
    ensures |CutText()| == 32 && CutText()[17..] == MARKER
    ensures (REDACTION + MARKER)[..1] == "[" && (REDACTION + MARKER)[1..] == "REDACTED]" + MARKER
  {
  }

  lemma Exposed(values: seq<string>, before: string, out: string)
    requires values == MarkedValues() && before == REDACTION + "REDACTED]" && out == before + MARKER
    ensures |before| == 19 <= |out| && OccursAt(out, 19, MARKER) && out[..19] == before && !Safe(values, before)
  {
    OccursInTail(before, MARKER, 0, MARKER);
    assert before[18..] == "]";
    LongestOfAtLeast(values, 2, before, 1);
    assert before[9..][0] != REDACTION[0];
  }

  /** With a value that holds a marker, its redaction can take a marker out of the text: what stood before that marker
      is then looked for inside the redaction, which is cut, and another value's prefix shows. */
  lemma MarkedValueMisleads()
    ensures !Unmarked(MarkedValues())
    ensures var out := AfterMarkers(CutText(), MarkedValues(), Markers(CutText(), 0), 0);
            OccursAt(out, 19, MARKER) && !Safe(MarkedValues(), out[..19])
  {
    MarkersOfCut();
    FirstCut();
    SecondCut();
    CutPieces();
    TwoCuts(CutText(), MarkedValues(), [1, 17], 17, REDACTION + MARKER, 1);
    Regrouped(REDACTION, "REDACTED]", MARKER);
    Exposed(MarkedValues(), REDACTION + "REDACTED]", REDACTION + "REDACTED]" + MARKER);
    HoldsMarker();
  }

  lemma HoldsMarker()
    ensures !Unmarked(MarkedValues())
  {
    var v := MarkedValues()[0];
    assert v == "A" + (MARKER + "BC");
    OccursInTail("A", MARKER + "BC", 0, MARKER);
    OccursInHead(MARKER, "BC", 0, MARKER);
    assert OccursAt(v, 1, MARKER) && v in MarkedValues();
  }
}
