/** Removal of PEM private-key blocks from a text. */
module PemScanner {
  import opened Basics
  import opened TextSearch
  import opened Truncation

  const PEM_BEGIN := "-----BEGIN "
  const PEM_END := "-----END "
  const PEM_TERMINATOR := "-----"
  const MAX_LABEL: nat := 64

  /** A label names a private key and holds nothing but capitals, digits and blanks, as `allowed` tells them. */
  predicate KeyLabel(name: string, allowed: char -> bool) {
    && name != [] && |name| <= MAX_LABEL
    && (name == "PRIVATE KEY" || (|name| >= 12 && name[|name| - 12..] == " PRIVATE KEY"))
    && forall i :: 0 <= i < |name| ==> allowed(name[i])
  }

  function LabelEnd(text: string, start: nat, prefix: string): Option<nat> {
    Find(text, PEM_TERMINATOR, start + |prefix|, start + |prefix| + MAX_LABEL + |PEM_TERMINATOR|)
  }

  /** `_private_key_marker_end`. */
  function MarkerEnd(text: string, start: nat, prefix: string, allowed: char -> bool): (r: Option<nat>)
    ensures r.Some? ==> start + |prefix| < r.value <= |text|
  {
    match LabelEnd(text, start, prefix)
    case None => None
    case Some(t) => if KeyLabel(text[start + |prefix|..t], allowed) then Some(t + |PEM_TERMINATOR|) else None
  }

  /** A recognised marker stands at `p`. */
  predicate Marks(text: string, p: nat, prefix: string, allowed: char -> bool) {
    OccursAt(text, p, prefix) && MarkerEnd(text, p, prefix, allowed).Some?
  }

  /** The first recognised marker at or after `from`. */
  function FirstMark(text: string, from: nat, prefix: string, allowed: char -> bool): (r: Option<nat>)
    ensures r.Some? ==> from <= r.value < |text| && Marks(text, r.value, prefix, allowed)
    ensures forall p: nat :: from <= p < (if r.Some? then r.value else |text|) ==> !Marks(text, p, prefix, allowed)
    decreases |text| - from
  {
    if from >= |text| then None
    else if Marks(text, from, prefix, allowed) then Some(from)
    else FirstMark(text, from + 1, prefix, allowed)
  }

  /** Where the block that starts at the header `h` ends: behind the next footer, if there is one. */
  function BlockEnd(text: string, h: nat, allowed: char -> bool): (r: Option<nat>)
    requires Marks(text, h, PEM_BEGIN, allowed)
    ensures r.Some? ==> h < r.value <= |text|
  {
    match FirstMark(text, MarkerEnd(text, h, PEM_BEGIN, allowed).value, PEM_END, allowed)
    case None => None
    case Some(f) => MarkerEnd(text, f, PEM_END, allowed)
  }

  /** What the scan is meant to leave of the text from `from` on: every block from a private-key header to the end of
      the next private-key footer, or of the text, is replaced; everything else is kept, in order. */
  function Scrubbed(text: string, from: nat, allowed: char -> bool): string
    requires from <= |text|
    decreases |text| - from
  {
    match FirstMark(text, from, PEM_BEGIN, allowed)
    case None => text[from..]
    case Some(h) =>
      text[from..h] + REDACTION +
        match BlockEnd(text, h, allowed)
        case None => ""
        case Some(e) => Scrubbed(text, e, allowed)
  }

  // ----- the loops

  /** Neither marker prefix overlaps itself. */
  lemma NoOverlap(text: string, p: nat, q: nat, prefix: string)
    requires prefix == PEM_BEGIN || prefix == PEM_END
    requires OccursAt(text, p, prefix) && OccursAt(text, q, prefix) && p < q
    ensures p + |prefix| <= q
  {
    if q < p + |prefix| {
      OccursChar(text, p, prefix, |prefix| - 1);
      OccursChar(text, q, prefix, p + |prefix| - 1 - q);
    }
  }

  /** No recognised marker starts in [from, to). */
  ghost predicate Unmarked(text: string, from: nat, to: nat, prefix: string, allowed: char -> bool) {
    forall p: nat :: from <= p < to ==> !Marks(text, p, prefix, allowed)
  }

  lemma FirstMarkIs(text: string, from: nat, prefix: string, allowed: char -> bool, p: nat)
    requires from <= p < |text| && Unmarked(text, from, p, prefix, allowed) && Marks(text, p, prefix, allowed)
    ensures FirstMark(text, from, prefix, allowed) == Some(p)
  {
  }

  lemma NoFirstMark(text: string, from: nat, prefix: string, allowed: char -> bool)
    requires Unmarked(text, from, |text|, prefix, allowed)
    ensures FirstMark(text, from, prefix, allowed) == None
  {
  }

  /** A search that found the prefix at `p`, or nowhere, leaves no marker behind. */
  lemma Passed(text: string, from: nat, scan: nat, prefix: string, allowed: char -> bool)
    requires from <= scan && Unmarked(text, from, scan, prefix, allowed)
    ensures var found := Find(text, prefix, scan, |text|);
            && (found.None? ==> Unmarked(text, from, |text|, prefix, allowed))
            && (found.Some? ==> Unmarked(text, from, found.value, prefix, allowed))
  {
  }

  lemma Skipped(text: string, from: nat, p: nat, prefix: string, allowed: char -> bool)
    requires prefix == PEM_BEGIN || prefix == PEM_END
    requires Unmarked(text, from, p, prefix, allowed) && OccursAt(text, p, prefix) && !Marks(text, p, prefix, allowed)
    ensures Unmarked(text, from, p + |prefix|, prefix, allowed)
  {
    forall q: nat | from <= q < p + |prefix| ensures !Marks(text, q, prefix, allowed) {
      if p < q && OccursAt(text, q, prefix) { NoOverlap(text, p, q, prefix); }
    }
  }

  /** `_find_private_key_footer`. */
  method FindFooter(text: string, start: nat, allowed: char -> bool) returns (end: Option<nat>)
    requires start <= |text|
    ensures var f := FirstMark(text, start, PEM_END, allowed);
            end == if f.None? then None else MarkerEnd(text, f.value, PEM_END, allowed)
  {
    var scan := start;
    while true
      invariant start <= scan <= |text| && Unmarked(text, start, scan, PEM_END, allowed)
      decreases |text| - scan
    {
      Passed(text, start, scan, PEM_END, allowed);
      var found := Find(text, PEM_END, scan, |text|);
      if found.None? {
        NoFirstMark(text, start, PEM_END, allowed);
        return None;
      }
      end := MarkerEnd(text, found.value, PEM_END, allowed);
      if end.Some? {
        FirstMarkIs(text, start, PEM_END, allowed, found.value);
        return;
      }
      Skipped(text, start, found.value, PEM_END, allowed);
      scan := found.value + |PEM_END|;
    }
  }

  /** The parts kept so far, and what remains to do. */
  ghost predicate Progress(text: string, allowed: char -> bool, out: string, retained: nat) {
    retained <= |text| && out + Scrubbed(text, retained, allowed) == Scrubbed(text, 0, allowed)
  }

  lemma LastPiece(text: string, allowed: char -> bool, out: string, retained: nat)
    requires Progress(text, allowed, out, retained) && Unmarked(text, retained, |text|, PEM_BEGIN, allowed)
    ensures out + text[retained..] == Scrubbed(text, 0, allowed)
  {
    NoFirstMark(text, retained, PEM_BEGIN, allowed);
  }

  /** What the scan leaves behind the block at the header `h`. */
  function AfterBlock(text: string, h: nat, allowed: char -> bool): string
    requires Marks(text, h, PEM_BEGIN, allowed)
  {
    match BlockEnd(text, h, allowed)
    case None => ""
    case Some(e) => Scrubbed(text, e, allowed)
  }

  lemma Unroll(text: string, from: nat, h: nat, allowed: char -> bool)
    requires from <= |text| && FirstMark(text, from, PEM_BEGIN, allowed) == Some(h)
    ensures Scrubbed(text, from, allowed) == (text[from..h] + REDACTION) + AfterBlock(text, h, allowed)
  {
  }

  lemma Joined(a: string, b: string, c: string, d: string)
    ensures a + ((b + c) + d) == (a + b + c) + d
  {
  }

  lemma NextPiece(text: string, allowed: char -> bool, out: string, retained: nat, h: nat)
    requires Progress(text, allowed, out, retained) && retained <= h < |text|
    requires Unmarked(text, retained, h, PEM_BEGIN, allowed) && Marks(text, h, PEM_BEGIN, allowed)
    ensures (out + text[retained..h] + REDACTION) + AfterBlock(text, h, allowed) == Scrubbed(text, 0, allowed)
  {
    FirstMarkIs(text, retained, PEM_BEGIN, allowed, h);
    Unroll(text, retained, h, allowed);
    Joined(out, text[retained..h], REDACTION, AfterBlock(text, h, allowed));
  }

  /** `_redact_pem_private_keys`. */
  method RedactPrivateKeys(text: string, allowed: char -> bool) returns (out: string)
    ensures out == Scrubbed(text, 0, allowed)
  {
    out := "";
    var retained := 0;
    var scan := 0;
    while true
      invariant 0 <= retained <= scan <= |text|
      invariant Unmarked(text, retained, scan, PEM_BEGIN, allowed)
      invariant Progress(text, allowed, out, retained)
      decreases |text| - scan
    {
      Passed(text, retained, scan, PEM_BEGIN, allowed);
      var found := Find(text, PEM_BEGIN, scan, |text|);
      if found.None? {
        LastPiece(text, allowed, out, retained);
        out := out + text[retained..];
        return;
      }
      var header := found.value;
      var headerEnd := MarkerEnd(text, header, PEM_BEGIN, allowed);
      if headerEnd.None? {
        Skipped(text, retained, header, PEM_BEGIN, allowed);
        scan := header + |PEM_BEGIN|;
        continue;
      }
      NextPiece(text, allowed, out, retained, header);
      var footerEnd := FindFooter(text, headerEnd.value, allowed);
      out := out + text[retained..header] + REDACTION;
      if footerEnd.None? {
        assert out + "" == out;
        return;
      }
      retained := footerEnd.value;
      scan := footerEnd.value;
    }
  }

  // ----- no private key is left

  lemma FindIs(text: string, pattern: string, from: nat, to: nat, t: nat)
    requires from <= t && t + |pattern| <= to && OccursAt(text, t, pattern)
    requires forall i: nat :: from <= i < t ==> !OccursAt(text, i, pattern)
    ensures Find(text, pattern, from, to) == Some(t)
  {
  }

  /** A search reads only what lies behind its start. */
  lemma OccursBehind(a: string, b: string, pattern: string, i: nat)
    requires i >= |a|
    ensures OccursAt(a + b, i, pattern) <==> OccursAt(b, i - |a|, pattern)
  {
    OccursInTail(a, b, i - |a|, pattern);
  }

  lemma FoundBehind(a: string, b: string, pattern: string, from: nat, to: nat)
    requires pattern != [] && Find(b, pattern, from, to).Some?
    ensures Find(a + b, pattern, |a| + from, |a| + to) == Some(|a| + Find(b, pattern, from, to).value)
  {
    var g := Find(b, pattern, from, to).value;
    OccursBehind(a, b, pattern, |a| + g);
    forall i: nat | |a| + from <= i < |a| + g ensures !OccursAt(a + b, i, pattern) { OccursBehind(a, b, pattern, i); }
    FindIs(a + b, pattern, |a| + from, |a| + to, |a| + g);
  }

  /** What is found in the longer text stands in its tail. */
  lemma FoundInTail(a: string, b: string, pattern: string, from: nat, to: nat)
    requires Find(a + b, pattern, |a| + from, |a| + to).Some?
    ensures Find(b, pattern, from, to).Some?
  {
    var f := Find(a + b, pattern, |a| + from, |a| + to).value;
    OccursBehind(a, b, pattern, f);
    var k: nat := f - |a|;
    assert from <= k && k + |pattern| <= to && OccursAt(b, k, pattern);
  }

  lemma FindBehind(a: string, b: string, pattern: string, from: nat, to: nat)
    requires pattern != []
    ensures var g := Find(b, pattern, from, to);
            Find(a + b, pattern, |a| + from, |a| + to) == if g.Some? then Some(|a| + g.value) else None
  {
    if Find(b, pattern, from, to).Some? {
      FoundBehind(a, b, pattern, from, to);
    } else if Find(a + b, pattern, |a| + from, |a| + to).Some? {
      FoundInTail(a, b, pattern, from, to);
    }
  }

  lemma LabelEndBehind(a: string, b: string, p: nat)
    ensures var t := LabelEnd(b, p, PEM_BEGIN);
            LabelEnd(a + b, |a| + p, PEM_BEGIN) == if t.Some? then Some(|a| + t.value) else None
  {
    var l := p + |PEM_BEGIN|;
    FindBehind(a, b, PEM_TERMINATOR, l, l + MAX_LABEL + |PEM_TERMINATOR|);
  }

  lemma SliceBehind(a: string, b: string, i: nat, j: nat)
    requires i <= j <= |b|
    ensures (a + b)[|a| + i..|a| + j] == b[i..j]
  {
  }

  lemma MarkerEndBehind(a: string, b: string, p: nat, allowed: char -> bool)
    ensures MarkerEnd(a + b, |a| + p, PEM_BEGIN, allowed).Some? <==> MarkerEnd(b, p, PEM_BEGIN, allowed).Some?
  {
    LabelEndBehind(a, b, p);
    var t := LabelEnd(b, p, PEM_BEGIN);
    if t.Some? { SliceBehind(a, b, p + |PEM_BEGIN|, t.value); }
  }

  lemma MarksBehind(a: string, b: string, p: nat, allowed: char -> bool)
    ensures Marks(a + b, |a| + p, PEM_BEGIN, allowed) <==> Marks(b, p, PEM_BEGIN, allowed)
  {
    OccursInTail(a, b, p, PEM_BEGIN);
    MarkerEndBehind(a, b, p, allowed);
  }

  /** A text that agrees on everything up to the end of a marker has the marker too. */
  lemma MarksBefore(a: string, b: string, c: string, p: nat, allowed: char -> bool)
    requires Marks(a + b, p, PEM_BEGIN, allowed) && MarkerEnd(a + b, p, PEM_BEGIN, allowed).value <= |a|
    ensures Marks(a + c, p, PEM_BEGIN, allowed)
  {
    var l := p + |PEM_BEGIN|;
    var t := LabelEnd(a + b, p, PEM_BEGIN).value;
    OccursInHead(a, b, p, PEM_BEGIN);
    OccursInHead(a, c, p, PEM_BEGIN);
    OccursInHead(a, b, t, PEM_TERMINATOR);
    OccursInHead(a, c, t, PEM_TERMINATOR);
    forall i: nat | l <= i < t ensures !OccursAt(a + c, i, PEM_TERMINATOR) {
      OccursInHead(a, b, i, PEM_TERMINATOR);
      OccursInHead(a, c, i, PEM_TERMINATOR);
    }
    FindIs(a + c, PEM_TERMINATOR, l, l + MAX_LABEL + |PEM_TERMINATOR|, t);
    assert (a + c)[l..t] == (a + b)[l..t];
  }

  /** No marker prefix and no terminator holds the bracket a redaction starts with. */
  lemma NotOverBracket(s: string, k: nat, q: nat, pattern: string)
    requires pattern == PEM_BEGIN || pattern == PEM_TERMINATOR
    requires k < |s| && s[k] == '[' && OccursAt(s, q, pattern)
    ensures q > k || q + |pattern| <= k
  {
    if q <= k < q + |pattern| { OccursChar(s, q, pattern, k - q); }
  }

  lemma LabelChar(s: string, from: nat, to: nat, k: nat, allowed: char -> bool)
    requires from <= k < to <= |s|
    ensures KeyLabel(s[from..to], allowed) ==> allowed(s[k])
  {
    assert s[from..to][k - from] == s[k];
  }

  /** A marker that starts before a redaction ends before it. */
  lemma EndsBeforeBracket(s: string, k: nat, p: nat, allowed: char -> bool)
    requires k < |s| && s[k] == '[' && !allowed('[') && p <= k && Marks(s, p, PEM_BEGIN, allowed)
    ensures MarkerEnd(s, p, PEM_BEGIN, allowed).value <= k
  {
    NotOverBracket(s, k, p, PEM_BEGIN);
    var l := p + |PEM_BEGIN|;
    var t := LabelEnd(s, p, PEM_BEGIN).value;
    NotOverBracket(s, k, t, PEM_TERMINATOR);
    if t > k { LabelChar(s, l, t, k, allowed); }
  }

  lemma NotInsideRedaction(a: string, b: string, p: nat)
    requires OccursAt(a + REDACTION + b, p, PEM_BEGIN) && p < |a + REDACTION|
    ensures p < |a|
  {
    var s := a + REDACTION + b;
    assert forall k: nat :: k < |REDACTION| ==> s[|a| + k] == REDACTION[k];
    OccursChar(s, p, PEM_BEGIN, 0);
  }

  /** One kept piece and its redaction add no marker to what follows. */
  lemma PieceUnmarked(text: string, from: nat, h: nat, rest: string, p: nat, allowed: char -> bool)
    requires from <= h <= |text| && Unmarked(text, from, h, PEM_BEGIN, allowed) && !allowed('[')
    requires p < |text[from..h] + REDACTION|
    ensures !Marks(text[from..h] + REDACTION + rest, p, PEM_BEGIN, allowed)
  {
    var a := text[from..h];
    var s := a + REDACTION + rest;
    if Marks(s, p, PEM_BEGIN, allowed) {
      NotInsideRedaction(a, rest, p);
      assert s[|a|] == '[' by { assert s[|a|] == REDACTION[0]; }
      EndsBeforeBracket(s, |a|, p, allowed);
      assert s == a + (REDACTION + rest);
      MarksBefore(a, REDACTION + rest, text[h..], p, allowed);
      assert a + text[h..] == text[from..];
      assert text == text[..from] + text[from..];
      MarksBehind(text[..from], text[from..], p, allowed);
    }
  }

  lemma NothingToScrub(text: string, from: nat, allowed: char -> bool, p: nat)
    requires from <= |text| && FirstMark(text, from, PEM_BEGIN, allowed).None?
    ensures !Marks(Scrubbed(text, from, allowed), p, PEM_BEGIN, allowed)
  {
    assert text == text[..from] + text[from..];
    MarksBehind(text[..from], text[from..], p, allowed);
  }

  lemma TailUnmarked(head: string, rest: string, allowed: char -> bool, p: nat)
    requires p >= |head| && !Marks(rest, p - |head|, PEM_BEGIN, allowed)
    ensures !Marks(head + rest, p, PEM_BEGIN, allowed)
  {
    var k: nat := p - |head|;
    MarksBehind(head, rest, k, allowed);
    assert p == |head| + k;
  }

  lemma FirstPieceUnmarked(text: string, from: nat, h: nat, allowed: char -> bool, p: nat)
    requires from <= |text| && FirstMark(text, from, PEM_BEGIN, allowed) == Some(h) && !allowed('[')
    requires var n := h - from + |REDACTION|; p >= n ==> !Marks(AfterBlock(text, h, allowed), p - n, PEM_BEGIN, allowed)
    ensures !Marks((text[from..h] + REDACTION) + AfterBlock(text, h, allowed), p, PEM_BEGIN, allowed)
  {
    var head := text[from..h] + REDACTION;
    var rest := AfterBlock(text, h, allowed);
    if p < |head| {
      PieceUnmarked(text, from, h, rest, p, allowed);
    } else {
      TailUnmarked(head, rest, allowed, p);
    }
  }

  lemma EmptyUnmarked(p: nat, allowed: char -> bool)
    ensures !Marks("", p, PEM_BEGIN, allowed)
  {
    assert p + |PEM_BEGIN| > |""|;
  }

  /** No private-key header that the scan itself would recognise is left, and no redaction makes one. */
  lemma {:induction false} NoKeyLeft(text: string, from: nat, allowed: char -> bool, p: nat)
    requires from <= |text| && !allowed('[')
    ensures !Marks(Scrubbed(text, from, allowed), p, PEM_BEGIN, allowed)
    decreases |text| - from, 1
  {
    var first := FirstMark(text, from, PEM_BEGIN, allowed);
    if first.None? {
      NothingToScrub(text, from, allowed, p);
    } else {
      var h := first.value;
      var n := h - from + |REDACTION|;
      if p >= n { NoKeyAfter(text, from, h, allowed, p - n); }
      FirstPieceUnmarked(text, from, h, allowed, p);
      Unroll(text, from, h, allowed);
    }
  }

  lemma {:induction false} NoKeyAfter(text: string, from: nat, h: nat, allowed: char -> bool, p: nat)
    requires from <= h < |text| && !allowed('[') && Marks(text, h, PEM_BEGIN, allowed)
    ensures !Marks(AfterBlock(text, h, allowed), p, PEM_BEGIN, allowed)
    decreases |text| - from, 0
  {
    match BlockEnd(text, h, allowed)
    case None => EmptyUnmarked(p, allowed);
    case Some(e) => NoKeyLeft(text, e, allowed, p);
  }

  /** A text that was scrubbed once has nothing left to scrub. */
  lemma ScrubbingSettles(text: string, allowed: char -> bool)
    requires !allowed('[')
    ensures Scrubbed(Scrubbed(text, 0, allowed), 0, allowed) == Scrubbed(text, 0, allowed)
  {
    var once := Scrubbed(text, 0, allowed);
    forall p: nat ensures !Marks(once, p, PEM_BEGIN, allowed) { NoKeyLeft(text, 0, allowed, p); }
    NoFirstMark(once, 0, PEM_BEGIN, allowed);
    assert once[0..] == once;
  }
}
