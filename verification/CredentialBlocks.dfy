/** Credentials whose value is a block of deeper lines, and what becomes of those lines. */
module CredentialBlocks {
  import opened Basics
  import opened Credentials
  import opened CredentialLines

  // ----- the line that opens a block

  /** The value is white space, or has one of the block signs behind its white space. */
  ghost predicate OpensBlock(value: string, c: Classes) {
    || (forall i :: 0 <= i < |value| ==> c.space(value[i]))
    || exists i :: 0 <= i < |value| && (value[i] == '|' || value[i] == '>') && forall j :: 0 <= j < i ==> c.space(value[j])
  }

  lemma BlockishIs(value: string, c: Classes)
    requires Sane(c)
    ensures Blockish(value, c) <==> OpensBlock(value, c)
  {
    var first := Skip(value, 0, |value|, c.space);
    if i :| 0 <= i < |value| && (value[i] == '|' || value[i] == '>') && forall j :: 0 <= j < i ==> c.space(value[j]) {
      SkipIs(value, 0, |value|, c.space, i);
    }
  }

  /** The scan finds something, which opens this block, or goes on. */
  ghost predicate OpensHere(opens: nat -> Option<nat>, found: bool, q: nat, block: Option<nat>) {
    if found then opens(q) == block else opens(q) == opens(q + 1)
  }

  ghost predicate OpensOn(opens: nat -> Option<nat>, found: nat -> bool, p: nat, at: nat, block: Option<nat>) {
    found(at) && forall q: nat {:trigger found(q)} :: p <= q <= at ==> OpensHere(opens, found(q), q, block)
  }

  /** Nothing before the place where something is found opens a block. */
  lemma {:induction false} BlockRuns(opens: nat -> Option<nat>, found: nat -> bool, p: nat, at: nat, block: Option<nat>)
    requires p <= at && OpensOn(opens, found, p, at, block)
    ensures opens(p) == block
    decreases at - p
  {
    assert OpensHere(opens, found(p), p, block);
    if !found(p) { BlockRuns(opens, found, p + 1, at, block); }
  }

  function OpensAt(line: string, end: nat, c: Classes): nat -> Option<nat>
    requires end <= |line|
  {
    (q: nat) => BlockOf(line, Tiles(line, q, end, c), None, c)
  }

  lemma FirstOfBlock(line: string, t: Tile, rest: seq<Tile>, c: Classes)
    ensures BlockOf(line, [t] + rest, None, c) ==
            BlockOf(line, rest, if t.Secret? && InLine(line, t) && Blockish(line[t.value..t.to], c) then Some(t.column) else None, c)
  {
    assert ([t] + rest)[1..] == rest;
  }

  lemma PlainOpensNone(line: string, q: nat, end: nat, c: Classes)
    requires q < end <= |line| && AssignmentAt(line, q, end, c).None? && !IsQuote(line[q])
    ensures BlockOf(line, Tiles(line, q, end, c), None, c) == BlockOf(line, Tiles(line, q + 1, end, c), None, c)
  {
    assert Tiles(line, q, end, c) == [Plain(q, q + 1)] + Tiles(line, q + 1, end, c);
    FirstOfBlock(line, Plain(q, q + 1), Tiles(line, q + 1, end, c), c);
  }

  lemma SecretOpens(line: string, q: nat, end: nat, a: Assignment, c: Classes)
    requires q < end <= |line| && AssignmentAt(line, q, end, c) == Some(a) && c.credential(a.key)
    requires ValueEnd(line, a.value, end, c) == end
    ensures BlockOf(line, Tiles(line, q, end, c), None, c) == if Blockish(line[a.value..end], c) then Some(a.column) else None
  {
    TilesAtKey(line, q, end, a, c);
    var t := Secret(q, a.column, a.value, end);
    assert Tiles(line, end, end, c) == [];
    FirstOfBlock(line, t, [], c);
  }

  lemma StepOpens(line: string, q: nat, end: nat, x: Spot, c: Classes, opens: nat -> Option<nat>, block: Option<nat>)
    requires Sane(c) && Stands(line, end, x, c) && q <= x.at && Quiet(line, q, x.at) && c.credential(x.key)
    requires ValueEnd(line, x.v, end, c) == end && block == if Blockish(line[x.v..end], c) then Some(x.at) else None
    requires opens == OpensAt(line, end, c)
    ensures OpensHere(opens, AssignmentAt(line, q, end, c).Some?, q, block)
  {
    FirstFinds(line, q, end, x, c);
    if AssignmentAt(line, q, end, c).None? {
      PlainOpensNone(line, q, end, c);
    } else {
      SecretOpens(line, q, end, Assignment(x.key, x.at, x.v), c);
    }
  }

  lemma StepsOpen(line: string, end: nat, x: Spot, c: Classes, opens: nat -> Option<nat>, found: nat -> bool, block: Option<nat>)
    requires Sane(c) && Stands(line, end, x, c) && Quiet(line, 0, x.at) && c.credential(x.key)
    requires ValueEnd(line, x.v, end, c) == end && block == if Blockish(line[x.v..end], c) then Some(x.at) else None
    requires opens == OpensAt(line, end, c) && found == Found(line, end, c)
    ensures OpensOn(opens, found, 0, x.at, block)
  {
    forall q: nat {:trigger found(q)} | 0 <= q <= x.at ensures OpensHere(opens, found(q), q, block) {
      StepOpens(line, q, end, x, c, opens, block);
    }
    FoundAtKey(line, x.at, x.e, x.key, x.s, x.v, end, c);
  }

  lemma BlockAtKey(line: string, end: nat, x: Spot, c: Classes, block: Option<nat>)
    requires Sane(c) && Stands(line, end, x, c) && Quiet(line, 0, x.at) && c.credential(x.key)
    requires ValueEnd(line, x.v, end, c) == end && block == if Blockish(line[x.v..end], c) then Some(x.at) else None
    ensures BlockOf(line, Tiles(line, 0, end, c), None, c) == block
  {
    var opens, found := OpensAt(line, end, c), Found(line, end, c);
    StepsOpen(line, end, x, c, opens, found, block);
    BlockRuns(opens, found, 0, x.at, block);
  }

  /** A credential's line opens a block, at the column of its key, iff its value is none or begins with a block sign. */
  lemma CredentialOpens(a: Assigning, value: string, ending: string, line: string, c: Classes)
    requires Sane(c) && WellWritten(a, c) && c.credential(a.key)
    requires ValueText(value, c) && EndsInText(value) && IsEnding(ending) && line == UpToValue(a) + value + ending
    ensures LineBlock(line, c) == if OpensBlock(value, c) then Some(|a.head|) else None
  {
    var end := ContentEnds(a, value, ending, line, c);
    Regrouped(UpToValue(a), value, ending);
    assert value != "" ==> line[|UpToValue(a)|] == value[0];
    var x := Places(a, value + ending, line, end, c);
    ValueIsRest(line, x.v, end, value, c);
    BlockishIs(value, c);
    BlockAtKey(line, end, x, c, if Blockish(value, c) then Some(x.at) else None);
  }

  // ----- the lines of the block

  /** The line is white space, or begins with more blanks than `column`. */
  predicate Deeper(line: string, column: nat, c: Classes) {
    || (forall i :: 0 <= i < |line| ==> c.space(line[i]))
    || (|line| > column && forall i :: 0 <= i <= column ==> Blank(line[i]))
  }

  lemma DeeperContinues(line: string, column: nat, c: Classes)
    requires Sane(c)
    ensures Continues(line, column, c) <==> Deeper(line, column, c)
  {
    if forall i :: 0 <= i < |line| ==> c.space(line[i]) { SkipIs(line, 0, |line|, c.space, |line|); }
    var blanks := Skip(line, 0, |line|, IsBlank);
    assert blanks < |line| ==> !IsBlank(line[blanks]);
    if blanks > column && blanks == |line| { assert forall i :: 0 <= i < |line| ==> IsBlank(line[i]); }
  }

  lemma OneMoreLine(lines: seq<string>, n: nat, column: nat, c: Classes)
    requires n < |lines| && BlockAfter(lines, n, c) == Some(column) && Continues(lines[n], column, c)
    ensures BlockAfter(lines, n + 1, c) == Some(column) && RedactedText(lines, n + 1, c) == RedactedText(lines, n, c)
  {
    var text := RedactedText(lines, n, c);
    assert Dropped(lines, n, c);
    assert text + [] == text;
  }

  lemma FirstLine(lines: seq<string>, first: string, c: Classes)
    requires |lines| > 0 && first == RedactedLine(lines[0], c)
    ensures BlockAfter(lines, 1, c) == LineBlock(lines[0], c) && RedactedText(lines, 1, c) == first
  {
    assert BlockAfter(lines, 0, c).None? && RedactedText(lines, 0, c) == [];
    assert [] + first == first;
  }

  ghost predicate KeptBy(p: nat -> bool, i: nat) {
    p(i) ==> p(i + 1)
  }

  lemma {:induction false} Lasts(p: nat -> bool, k: nat, n: nat)
    requires k <= n && p(k) && forall i: nat :: k <= i < n ==> KeptBy(p, i)
    ensures p(n)
    decreases n
  {
    if k < n {
      Lasts(p, k, n - 1);
      assert KeptBy(p, n - 1);
    }
  }

  /** After `n` lines the block is going on, and this is what was given out. */
  function InBlock(lines: seq<string>, column: nat, first: string, c: Classes): nat -> bool {
    (n: nat) => n <= |lines| && BlockAfter(lines, n, c) == Some(column) && RedactedText(lines, n, c) == first
  }

  lemma DeeperStays(lines: seq<string>, n: nat, column: nat, first: string, c: Classes, p: nat -> bool)
    requires Sane(c) && n < |lines| && Deeper(lines[n], column, c) && p == InBlock(lines, column, first, c)
    ensures KeptBy(p, n)
  {
    DeeperContinues(lines[n], column, c);
    if p(n) { OneMoreLine(lines, n, column, c); }
  }

  lemma BlockLasts(lines: seq<string>, n: nat, column: nat, first: string, c: Classes)
    requires Sane(c) && 0 < n <= |lines| && LineBlock(lines[0], c) == Some(column)
    requires forall k :: 0 < k < n ==> Deeper(lines[k], column, c)
    requires first == RedactedLine(lines[0], c)
    ensures BlockAfter(lines, n, c) == Some(column) && RedactedText(lines, n, c) == first
  {
    var p := InBlock(lines, column, first, c);
    FirstLine(lines, first, c);
    forall i: nat | 1 <= i < n ensures KeptBy(p, i) { DeeperStays(lines, i, column, first, c, p); }
    Lasts(p, 1, n);
  }

  /** The deeper lines behind a credential's block key are dropped, up to the first line that is not deeper; that one is
      redacted like any other. */
  lemma BlockRedacted(a: Assigning, value: string, ending: string, lines: seq<string>, n: nat, c: Classes)
    requires Sane(c) && WellWritten(a, c) && c.credential(a.key)
    requires ValueText(value, c) && EndsInText(value) && IsEnding(ending) && OpensBlock(value, c)
    requires 0 < n <= |lines| && lines[0] == UpToValue(a) + value + ending
    requires forall k :: 0 < k < n ==> Deeper(lines[k], |a.head|, c)
    requires n < |lines| ==> !Deeper(lines[n], |a.head|, c)
    ensures RedactedText(lines, n, c) == UpToValue(a) + "<redacted>" + ending
    ensures n < |lines| ==> RedactedText(lines, n + 1, c) == UpToValue(a) + "<redacted>" + ending + RedactedLine(lines[n], c)
  {
    CredentialOpens(a, value, ending, lines[0], c);
    CredentialRedacted(a, value, ending, lines[0], c);
    BlockLasts(lines, n, |a.head|, UpToValue(a) + REDACTED + ending, c);
    if n < |lines| { DeeperContinues(lines[n], |a.head|, c); }
  }
}
