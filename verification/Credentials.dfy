/** Redaction of the values assigned to credential keys in a text that is not JSON. */
module Credentials {
  import opened Basics

  /** What Python and the key list tell: white space, letters and digits, and the keys of credentials. */
  datatype Classes = Classes(space: char -> bool, alnum: char -> bool, credential: string -> bool)

  const REDACTED := "<redacted>"

  predicate IsQuote(c: char) {
    c == '"' || c == '\''
  }

  predicate IsBlank(c: char) {
    c == ' ' || c == '\t'
  }

  // ----- the scans

  /** Past the characters of a class. */
  function Skip(line: string, index: nat, end: nat, p: char -> bool): (r: nat)
    requires index <= end <= |line|
    ensures index <= r <= end
    ensures forall i :: index <= i < r ==> p(line[i])
    ensures r < end ==> !p(line[r])
    decreases end - index
  {
    if index < end && p(line[index]) then Skip(line, index + 1, end, p) else index
  }

  function QuotedFrom(line: string, index: nat, quote: char, end: nat): (r: (nat, bool))
    requires end <= |line|
    ensures r.0 <= end && (index < end ==> index < r.0)
    ensures r.1 ==> index < r.0 && line[r.0 - 1] == quote
    ensures !r.1 ==> r.0 == end
    decreases end - index
  {
    if index >= end then (end, false)
    else if line[index] == '\\' then QuotedFrom(line, index + 2, quote, end)
    else if line[index] == quote then (index + 1, true)
    else QuotedFrom(line, index + 1, quote, end)
  }

  /** The end of the quoted text at `start`, and whether it is closed. */
  function QuotedEnd(line: string, start: nat, end: nat): (r: (nat, bool))
    requires start < end <= |line|
    ensures start < r.0 <= end && (r.1 ==> start + 2 <= r.0)
  {
    QuotedFrom(line, start + 1, line[start], end)
  }

  datatype Assignment = Assignment(key: string, column: nat, value: nat)

  predicate MayStart(line: string, start: nat, c: Classes)
    requires start <= |line|
  {
    start == 0 || c.space(line[start - 1]) || line[start - 1] == '{' || line[start - 1] == ',' || line[start - 1] == '['
  }

  /** Past the dash of a list item. */
  function PastDash(line: string, start: nat, end: nat, c: Classes): (r: nat)
    requires start < end <= |line|
    ensures start <= r <= end
  {
    if line[start] == '-' && start + 1 < end && c.space(line[start + 1]) then Skip(line, start + 1, end, c.space) else start
  }

  function KeyChar(c: Classes): char -> bool {
    x => c.alnum(x) || x == '_' || x == '-'
  }

  /** The key at `at`, and where it ends. */
  function KeyAt(line: string, at: nat, end: nat, c: Classes): (r: Option<(string, nat)>)
    requires at < end <= |line|
    ensures r.Some? && r.value.0 != [] ==> at < r.value.1 <= end
    ensures r.Some? ==> at <= r.value.1 <= end
  {
    if IsQuote(line[at]) then
      var (keyEnd, closed) := QuotedEnd(line, at, end);
      if closed then Some((line[at + 1..keyEnd - 1], keyEnd)) else None
    else
      var keyEnd := Skip(line, at, end, KeyChar(c));
      Some((line[at..keyEnd], keyEnd))
  }

  /** A separator behind the key, and where the value starts. */
  function Assigned(line: string, key: string, column: nat, keyEnd: nat, end: nat): (r: Option<Assignment>)
    requires keyEnd <= end <= |line|
    ensures r.Some? ==> r.value.key == key && r.value.column == column && keyEnd < r.value.value <= end
  {
    var sign := Skip(line, keyEnd, end, IsBlank);
    if sign >= end || (line[sign] != ':' && line[sign] != '=') then None
    else Some(Assignment(key, column, Skip(line, sign + 1, end, IsBlank)))
  }

  /** `_assignment_start`: a key and a separator, where a key may start. */
  function AssignmentAt(line: string, start: nat, end: nat, c: Classes): (r: Option<Assignment>)
    requires start < end <= |line|
    ensures r.Some? ==> start <= r.value.column < r.value.value <= end
  {
    if !MayStart(line, start, c) then None else
      var at := PastDash(line, start, end, c);
      if at >= end then None else
        match KeyAt(line, at, end, c)
        case None => None
        case Some((key, keyEnd)) => if key == [] then None else Assigned(line, key, at, keyEnd, end)
  }

  /** Back over the blanks before `index`. */
  function Trim(line: string, start: nat, index: nat): (r: nat)
    requires start <= index <= |line|
    ensures start <= r <= index
    ensures forall i :: r <= i < index ==> IsBlank(line[i])
  {
    if index > start && IsBlank(line[index - 1]) then Trim(line, start, index - 1) else index
  }

  /** Where a value stops before an assignment that follows it: before the blanks and one comma. */
  function Boundary(line: string, start: nat, index: nat): (r: nat)
    requires start <= index <= |line|
    ensures start <= r <= index
  {
    var b := Trim(line, start, index);
    if b > start && line[b - 1] == ',' then b - 1 else b
  }

  function ValueFrom(line: string, start: nat, index: nat, end: nat, c: Classes): (r: nat)
    requires start <= index && end <= |line| && start <= end
    ensures start <= r <= end
    decreases end - index
  {
    if index >= end then end
    else if index > start && AssignmentAt(line, index, end, c).Some? then Boundary(line, start, index)
    else if IsQuote(line[index]) then ValueFrom(line, start, QuotedEnd(line, index, end).0, end, c)
    else ValueFrom(line, start, index + 1, end, c)
  }

  /** `_assignment_value_end`. */
  function ValueEnd(line: string, start: nat, end: nat, c: Classes): (r: nat)
    requires start <= end <= |line|
    ensures start <= r <= end
  {
    if start >= end then end
    else if IsQuote(line[start]) then QuotedEnd(line, start, end).0
    else ValueFrom(line, start, start, end, c)
  }

  /** A value that is not quoted ends with the line, or right before another assignment. */
  lemma {:induction false} ValueStops(line: string, start: nat, index: nat, end: nat, c: Classes)
    requires start <= index && end <= |line| && start <= end
    ensures ValueFrom(line, start, index, end, c) == end
            || exists next :: index <= next < end && start < next && AssignmentAt(line, next, end, c).Some?
                              && ValueFrom(line, start, index, end, c) == Boundary(line, start, next)
    decreases end - index
  {
    if index < end && !(index > start && AssignmentAt(line, index, end, c).Some?) {
      ValueStops(line, start, if IsQuote(line[index]) then QuotedEnd(line, index, end).0 else index + 1, end, c);
    }
  }

  // ----- a line, cut into tiles

  datatype Tile = Plain(from: nat, to: nat) | Secret(from: nat, column: nat, value: nat, to: nat)

  function Tiles(line: string, index: nat, end: nat, c: Classes): seq<Tile>
    requires end <= |line|
    decreases end - index
  {
    if index >= end then []
    else
      match AssignmentAt(line, index, end, c)
      case None =>
        var next := if IsQuote(line[index]) then QuotedEnd(line, index, end).0 else index + 1;
        [Plain(index, next)] + Tiles(line, next, end, c)
      case Some(a) =>
        if c.credential(a.key) then
          var to := ValueEnd(line, a.value, end, c);
          [Secret(index, a.column, a.value, to)] + Tiles(line, to, end, c)
        else [Plain(index, a.value)] + Tiles(line, a.value, end, c)
  }

  /** The tile is what the text at its start calls for: the value of a credential's assignment is secret; the key of any
      other assignment, a quoted text or a single character is plain. */
  predicate Justified(line: string, end: nat, c: Classes, t: Tile)
    requires end <= |line|
  {
    t.from < end &&
    match AssignmentAt(line, t.from, end, c)
    case None => t == Plain(t.from, if IsQuote(line[t.from]) then QuotedEnd(line, t.from, end).0 else t.from + 1)
    case Some(a) =>
      if c.credential(a.key) then t == Secret(t.from, a.column, a.value, ValueEnd(line, a.value, end, c))
      else t == Plain(t.from, a.value)
  }

  /** The tiles lie side by side from `from` to `to`, none empty, secret values inside their tiles. */
  predicate SideBySide(tiles: seq<Tile>, from: nat, to: nat) {
    if tiles == [] then from == to
    else
      && tiles[0].from == from < tiles[0].to
      && (tiles[0].Secret? ==> from <= tiles[0].column < tiles[0].value <= tiles[0].to)
      && SideBySide(tiles[1..], tiles[0].to, to)
  }

  ghost predicate AllJustified(line: string, end: nat, c: Classes, tiles: seq<Tile>)
    requires end <= |line|
  {
    forall i :: 0 <= i < |tiles| ==> Justified(line, end, c, tiles[i])
  }

  lemma {:induction false} TilesCover(line: string, index: nat, end: nat, c: Classes)
    requires index <= end <= |line|
    ensures var tiles := Tiles(line, index, end, c);
            SideBySide(tiles, index, end) && AllJustified(line, end, c, tiles)
    decreases end - index
  {
    if index < end {
      var tiles := Tiles(line, index, end, c);
      TilesCover(line, tiles[0].to, end, c);
      assert tiles == [tiles[0]] + Tiles(line, tiles[0].to, end, c);
    }
  }

  /** There is one way only to cut a line. */
  lemma {:induction false} TilesAreUnique(line: string, index: nat, end: nat, c: Classes, tiles: seq<Tile>)
    requires index <= end <= |line| && SideBySide(tiles, index, end)
    requires AllJustified(line, end, c, tiles)
    ensures tiles == Tiles(line, index, end, c)
    decreases |tiles|
  {
    if tiles != [] {
      assert Justified(line, end, c, tiles[0]);
      TilesEnd(tiles, index, end, line, c);
      TilesAreUnique(line, tiles[0].to, end, c, tiles[1..]);
      assert tiles == [tiles[0]] + tiles[1..];
    }
  }

  lemma {:induction false} TilesEnd(tiles: seq<Tile>, from: nat, to: nat, line: string, c: Classes)
    requires SideBySide(tiles, from, to)
    ensures from <= to && (tiles != [] ==> tiles[0].to <= to)
    decreases |tiles|
  {
    if tiles != [] { TilesEnd(tiles[1..], tiles[0].to, to, line, c); }
  }

  lemma {:induction false} Covered(tiles: seq<Tile>, from: nat, to: nat, p: nat) returns (i: nat)
    requires SideBySide(tiles, from, to) && from <= p < to
    ensures i < |tiles| && tiles[i].from <= p < tiles[i].to
    decreases |tiles|
  {
    if p < tiles[0].to {
      i := 0;
    } else {
      var k := Covered(tiles[1..], tiles[0].to, to, p);
      i := k + 1;
    }
  }

  /** The tile of a credential's assignment. */
  predicate IsSecretAt(line: string, end: nat, c: Classes, t: Tile, p: nat)
    requires p < end <= |line|
  {
    match AssignmentAt(line, p, end, c)
    case None => false
    case Some(a) => c.credential(a.key) && t == Secret(p, a.column, a.value, ValueEnd(line, a.value, end, c))
  }

  predicate StartsSecret(line: string, end: nat, c: Classes, p: nat)
    requires p < end <= |line|
  {
    AssignmentAt(line, p, end, c).Some? && c.credential(AssignmentAt(line, p, end, c).value.key)
  }

  lemma JustifiedIsSecret(line: string, end: nat, c: Classes, t: Tile, p: nat)
    requires p < end <= |line| && Justified(line, end, c, t) && StartsSecret(line, end, c, p) && t.from == p
    ensures IsSecretAt(line, end, c, t, p)
  {
  }

  /** Wherever an assignment to a credential's key could start, its value is redacted, unless the place lies within a
      quoted text, an assignment or a value already dealt with. */
  lemma CredentialsAreCaught(line: string, end: nat, c: Classes, tiles: seq<Tile>, p: nat) returns (i: nat)
    requires p < end <= |line| && StartsSecret(line, end, c, p)
    requires SideBySide(tiles, 0, end) && AllJustified(line, end, c, tiles)
    ensures i < |tiles| && (IsSecretAt(line, end, c, tiles[i], p) || tiles[i].from < p < tiles[i].to)
  {
    i := Covered(tiles, 0, end, p);
    if tiles[i].from == p { JustifiedIsSecret(line, end, c, tiles[i], p); }
  }

  predicate InLine(line: string, t: Tile) {
    t.from <= t.to <= |line| && (t.Secret? ==> t.from <= t.value <= t.to)
  }

  function RenderTile(line: string, t: Tile): string {
    if !InLine(line, t) then []
    else if t.Plain? then line[t.from..t.to]
    else line[t.from..t.value] + REDACTED
  }

  function Render(line: string, tiles: seq<Tile>): string {
    if tiles == [] then [] else RenderTile(line, tiles[0]) + Render(line, tiles[1..])
  }

  /** The part of a line before its line ending. */
  function ContentEnd(line: string, end: nat): (r: nat)
    requires end <= |line|
    ensures r <= end
  {
    if end > 0 && (line[end - 1] == '\r' || line[end - 1] == '\n') then ContentEnd(line, end - 1) else end
  }

  function RedactedLine(line: string, c: Classes): string {
    var end := ContentEnd(line, |line|);
    Render(line, Tiles(line, 0, end, c)) + line[end..]
  }

  /** A text between tiles is the line itself; only secret values are replaced. */
  lemma {:induction false} NothingSecret(line: string, tiles: seq<Tile>, from: nat, to: nat)
    requires SideBySide(tiles, from, to) && from <= to <= |line|
    requires AllPlain(tiles)
    ensures Render(line, tiles) == line[from..to]
    decreases |tiles|
  {
    if tiles != [] {
      InOrder(tiles[1..], tiles[0].to, to);
      NothingSecret(line, tiles[1..], tiles[0].to, to);
      assert line[from..tiles[0].to] + line[tiles[0].to..to] == line[from..to];
    }
  }

  lemma {:induction false} InOrder(tiles: seq<Tile>, from: nat, to: nat)
    requires SideBySide(tiles, from, to)
    ensures from <= to
    decreases |tiles|
  {
    if tiles != [] { InOrder(tiles[1..], tiles[0].to, to); }
  }

  ghost predicate AllPlain(tiles: seq<Tile>) {
    forall i :: 0 <= i < |tiles| ==> tiles[i].Plain?
  }

  /** A line without a credential's value is kept as it is. */
  lemma PlainLineKept(line: string, c: Classes)
    requires AllPlain(Tiles(line, 0, ContentEnd(line, |line|), c))
    ensures RedactedLine(line, c) == line
  {
    var end := ContentEnd(line, |line|);
    TilesCover(line, 0, end, c);
    NothingSecret(line, Tiles(line, 0, end, c), 0, end);
    assert line[0..end] + line[end..] == line;
  }

  // ----- blocks of lines

  /** A value that a block of deeper lines follows: none on its own line, or one of the block signs. */
  predicate Blockish(value: string, c: Classes) {
    var first := Skip(value, 0, |value|, c.space);
    first == |value| || value[first] == '|' || value[first] == '>'
  }

  /** The column of the last secret key of a line whose value is a block, if any. */
  function BlockOf(line: string, tiles: seq<Tile>, so: Option<nat>, c: Classes): Option<nat> {
    if tiles == [] then so
    else
      var t := tiles[0];
      BlockOf(line, tiles[1..],
              if t.Secret? && InLine(line, t) && Blockish(line[t.value..t.to], c) then Some(t.column) else so, c)
  }

  function LineBlock(line: string, c: Classes): Option<nat> {
    BlockOf(line, Tiles(line, 0, ContentEnd(line, |line|), c), None, c)
  }

  /** The line belongs to the block of the key at the column: it is blank or indented deeper. */
  predicate Continues(line: string, column: nat, c: Classes) {
    Skip(line, 0, |line|, c.space) == |line| || Skip(line, 0, |line|, IsBlank) > column
  }

  /** The block that is going on after `i` lines. */
  function BlockAfter(lines: seq<string>, i: nat, c: Classes): Option<nat>
    requires i <= |lines|
  {
    if i == 0 then None else
      var block := BlockAfter(lines, i - 1, c);
      if block.Some? && Continues(lines[i - 1], block.value, c) then block else LineBlock(lines[i - 1], c)
  }

  predicate Dropped(lines: seq<string>, i: nat, c: Classes)
    requires i < |lines|
  {
    var block := BlockAfter(lines, i, c);
    block.Some? && Continues(lines[i], block.value, c)
  }

  /** The text of the first `n` lines, redacted. */
  function RedactedText(lines: seq<string>, n: nat, c: Classes): string
    requires n <= |lines|
  {
    if n == 0 then [] else
      RedactedText(lines, n - 1, c) + if Dropped(lines, n - 1, c) then [] else RedactedLine(lines[n - 1], c)
  }

  /** All lines from `j` on, up to `i`, belong to the block at the column. */
  ghost predicate AllContinue(lines: seq<string>, j: nat, i: nat, column: nat, c: Classes)
    requires i < |lines|
  {
    forall k :: j < k <= i ==> Continues(lines[k], column, c)
  }

  ghost predicate OpensBlockTo(lines: seq<string>, j: nat, i: nat, c: Classes)
    requires j < i < |lines|
  {
    && !Dropped(lines, j, c)
    && LineBlock(lines[j], c).Some?
    && AllContinue(lines, j, i, LineBlock(lines[j], c).value, c)
  }

  /** A line is dropped iff a kept line before it opened a block that every line since belongs to. */
  lemma {:induction false} DroppedIff(lines: seq<string>, i: nat, c: Classes)
    requires i < |lines|
    ensures Dropped(lines, i, c) <==> exists j :: 0 <= j < i && OpensBlockTo(lines, j, i, c)
  {
    if Dropped(lines, i, c) {
      var j := Opener(lines, i, c);
      assert OpensBlockTo(lines, j, i, c);
    }
    forall j | 0 <= j < i && OpensBlockTo(lines, j, i, c) ensures Dropped(lines, i, c) {
      StaysOpen(lines, j, i, c);
    }
  }

  lemma {:induction false} Opener(lines: seq<string>, i: nat, c: Classes) returns (j: nat)
    requires i < |lines| && BlockAfter(lines, i, c).Some? && Continues(lines[i], BlockAfter(lines, i, c).value, c)
    ensures j < i && !Dropped(lines, j, c) && LineBlock(lines[j], c) == BlockAfter(lines, i, c)
    ensures AllContinue(lines, j, i, BlockAfter(lines, i, c).value, c)
  {
    if Dropped(lines, i - 1, c) {
      j := Opener(lines, i - 1, c);
    } else {
      j := i - 1;
    }
  }

  lemma {:induction false} StaysOpen(lines: seq<string>, j: nat, i: nat, c: Classes)
    requires j < i < |lines| && OpensBlockTo(lines, j, i, c)
    ensures BlockAfter(lines, i, c) == LineBlock(lines[j], c)
    decreases i
  {
    if j < i - 1 {
      assert AllContinue(lines, j, i - 1, LineBlock(lines[j], c).value, c);
      assert Continues(lines[i - 1], LineBlock(lines[j], c).value, c);
      StaysOpen(lines, j, i - 1, c);
    }
  }

  // ----- the loops

  method SkipWhile(line: string, index: nat, end: nat, p: char -> bool) returns (r: nat)
    requires index <= end <= |line|
    ensures r == Skip(line, index, end, p)
  {
    r := index;
    while r < end && p(line[r])
      invariant index <= r <= end && Skip(line, r, end, p) == Skip(line, index, end, p)
    {
      r := r + 1;
    }
  }

  /** `_quoted_end`. */
  method FindQuotedEnd(line: string, start: nat, end: nat) returns (to: nat, closed: bool)
    requires start < end <= |line|
    ensures (to, closed) == QuotedEnd(line, start, end)
  {
    var quote := line[start];
    var index := start + 1;
    while index < end
      invariant QuotedFrom(line, index, quote, end) == QuotedEnd(line, start, end)
      decreases end - index
    {
      if line[index] == '\\' {
        index := index + 2;
      } else if line[index] == quote {
        return index + 1, true;
      } else {
        index := index + 1;
      }
    }
    return end, false;
  }

  method FindKey(line: string, at: nat, end: nat, c: Classes) returns (r: Option<(string, nat)>)
    requires at < end <= |line|
    ensures r == KeyAt(line, at, end, c)
  {
    if IsQuote(line[at]) {
      var keyEnd, closed := FindQuotedEnd(line, at, end);
      if !closed { return None; }
      return Some((line[at + 1..keyEnd - 1], keyEnd));
    }
    var keyEnd := SkipWhile(line, at, end, KeyChar(c));
    r := Some((line[at..keyEnd], keyEnd));
  }

  method FindStart(line: string, start: nat, end: nat, c: Classes) returns (r: nat)
    requires start < end <= |line|
    ensures r == PastDash(line, start, end, c)
  {
    r := start;
    if line[start] == '-' && start + 1 < end && c.space(line[start + 1]) { r := SkipWhile(line, start + 1, end, c.space); }
  }

  method FindValue(line: string, key: string, column: nat, keyEnd: nat, end: nat) returns (r: Option<Assignment>)
    requires keyEnd <= end <= |line|
    ensures r == Assigned(line, key, column, keyEnd, end)
  {
    var sign := SkipWhile(line, keyEnd, end, IsBlank);
    if sign >= end || (line[sign] != ':' && line[sign] != '=') { return None; }
    var value := SkipWhile(line, sign + 1, end, IsBlank);
    r := Some(Assignment(key, column, value));
  }

  /** `_assignment_start`. */
  method FindAssignment(line: string, start: nat, end: nat, c: Classes) returns (r: Option<Assignment>)
    requires start < end <= |line|
    ensures r == AssignmentAt(line, start, end, c)
  {
    if !MayStart(line, start, c) { return None; }
    var column := FindStart(line, start, end, c);
    if column >= end { return None; }
    var key := FindKey(line, column, end, c);
    if key.None? || key.value.0 == [] { return None; }
    r := FindValue(line, key.value.0, column, key.value.1, end);
  }

  method FindBoundary(line: string, start: nat, index: nat) returns (r: nat)
    requires start <= index <= |line|
    ensures r == Boundary(line, start, index)
  {
    r := index;
    while r > start && IsBlank(line[r - 1])
      invariant start <= r <= index && Trim(line, start, r) == Trim(line, start, index)
    {
      r := r - 1;
    }
    if r > start && line[r - 1] == ',' { r := r - 1; }
  }

  /** `_assignment_value_end`. */
  method FindValueEnd(line: string, start: nat, end: nat, c: Classes) returns (r: nat)
    requires start <= end <= |line|
    ensures r == ValueEnd(line, start, end, c)
  {
    if start >= end { return end; }
    if IsQuote(line[start]) {
      var quoted, _ := FindQuotedEnd(line, start, end);
      return quoted;
    }
    var index := start;
    while index < end
      invariant start <= index && ValueFrom(line, start, index, end, c) == ValueFrom(line, start, start, end, c)
      decreases end - index
    {
      var next: Option<Assignment> := None;
      if index > start { next := FindAssignment(line, index, end, c); }
      if next.Some? {
        r := FindBoundary(line, start, index);
        return;
      }
      if IsQuote(line[index]) {
        var quoted, _ := FindQuotedEnd(line, index, end);
        index := quoted;
      } else {
        index := index + 1;
      }
    }
    r := end;
  }

  /** How far the scan of a line has come: the text given so far, where the kept part not yet given starts, and the
      block opened so far; `rest` are the tiles to come. */
  ghost predicate Scanned(line: string, c: Classes, rest: seq<Tile>, out: string, cursor: nat, index: nat,
                          block: Option<nat>, all: string, last: Option<nat>) {
    && cursor <= index <= |line|
    && (out + line[cursor..index]) + Render(line, rest) == all
    && BlockOf(line, rest, block, c) == last
  }

  lemma FirstTile(line: string, c: Classes, out: string, t: Tile, rest: seq<Tile>, block: Option<nat>)
    ensures out + Render(line, [t] + rest) == (out + RenderTile(line, t)) + Render(line, rest)
    ensures BlockOf(line, [t] + rest, block, c) ==
            BlockOf(line, rest, if t.Secret? && InLine(line, t) && Blockish(line[t.value..t.to], c) then Some(t.column) else block, c)
  {
    assert ([t] + rest)[1..] == rest;
    assert out + (RenderTile(line, t) + Render(line, rest)) == (out + RenderTile(line, t)) + Render(line, rest);
  }

  lemma PlainStep(line: string, c: Classes, rest: seq<Tile>, out: string, cursor: nat, index: nat, to: nat,
                  block: Option<nat>, all: string, last: Option<nat>)
    requires Scanned(line, c, [Plain(index, to)] + rest, out, cursor, index, block, all, last) && index < to <= |line|
    ensures Scanned(line, c, rest, out, cursor, to, block, all, last)
  {
    FirstTile(line, c, out + line[cursor..index], Plain(index, to), rest, block);
    assert (out + line[cursor..index]) + line[index..to] == out + line[cursor..to];
  }

  lemma SecretText(line: string, out: string, cursor: nat, t: Tile)
    requires t.Secret? && cursor <= t.from <= t.value <= t.to <= |line|
    ensures (out + line[cursor..t.from]) + RenderTile(line, t) == (out + line[cursor..t.value] + REDACTED) + line[t.to..t.to]
  {
    assert line[cursor..t.value] == line[cursor..t.from] + line[t.from..t.value];
    assert line[t.to..t.to] == [];
  }

  lemma SecretStep(line: string, c: Classes, rest: seq<Tile>, out: string, cursor: nat, t: Tile,
                   block: Option<nat>, all: string, last: Option<nat>)
    requires t.Secret? && t.from <= t.value <= t.to <= |line|
    requires Scanned(line, c, [t] + rest, out, cursor, t.from, block, all, last)
    ensures Scanned(line, c, rest, out + line[cursor..t.value] + REDACTED, t.to, t.to,
                    if Blockish(line[t.value..t.to], c) then Some(t.column) else block, all, last)
  {
    FirstTile(line, c, out + line[cursor..t.from], t, rest, block);
    SecretText(line, out, cursor, t);
  }

  lemma ScanStart(line: string, c: Classes, tiles: seq<Tile>)
    ensures Scanned(line, c, tiles, [], 0, 0, None, Render(line, tiles), BlockOf(line, tiles, None, c))
  {
    assert ([] + line[0..0]) + Render(line, tiles) == Render(line, tiles);
  }

  lemma ScanEnd(line: string, c: Classes, out: string, cursor: nat, end: nat, block: Option<nat>, all: string, last: Option<nat>)
    requires Scanned(line, c, [], out, cursor, end, block, all, last)
    ensures out + line[cursor..] == all + line[end..] && block == last
  {
    assert line[cursor..] == line[cursor..end] + line[end..];
    assert (out + line[cursor..end]) + [] == out + line[cursor..end];
  }

  /** One turn of the loop: what stands at `index`. */
  method ScanTile(line: string, index: nat, end: nat, c: Classes) returns (t: Tile)
    requires index < end <= |line|
    ensures Justified(line, end, c, t) && t.from == index < t.to <= end && (t.Secret? ==> index <= t.value <= t.to)
    ensures Tiles(line, index, end, c) == [t] + Tiles(line, t.to, end, c)
  {
    var assignment := FindAssignment(line, index, end, c);
    if assignment.None? {
      if IsQuote(line[index]) {
        var quoted, _ := FindQuotedEnd(line, index, end);
        return Plain(index, quoted);
      }
      return Plain(index, index + 1);
    }
    var found := assignment.value;
    if !c.credential(found.key) { return Plain(index, found.value); }
    var valueEnd := FindValueEnd(line, found.value, end, c);
    t := Secret(index, found.column, found.value, valueEnd);
  }

  /** One line: the text it gives, and the block it opens. */
  method RedactLine(line: string, c: Classes) returns (out: string, block: Option<nat>)
    ensures out == RedactedLine(line, c) && block == LineBlock(line, c)
  {
    var end := ContentEnd(line, |line|);
    var cursor, index := 0, 0;
    out, block := [], None;
    ghost var all, last := Render(line, Tiles(line, 0, end, c)), LineBlock(line, c);
    ScanStart(line, c, Tiles(line, 0, end, c));
    while index < end
      invariant 0 <= cursor <= index <= end
      invariant Scanned(line, c, Tiles(line, index, end, c), out, cursor, index, block, all, last)
      decreases end - index
    {
      var t := ScanTile(line, index, end, c);
      if t.Plain? {
        PlainStep(line, c, Tiles(line, t.to, end, c), out, cursor, index, t.to, block, all, last);
      } else {
        SecretStep(line, c, Tiles(line, t.to, end, c), out, cursor, t, block, all, last);
        out := out + line[cursor..t.value] + REDACTED;
        if Blockish(line[t.value..t.to], c) { block := Some(t.column); }
        cursor := t.to;
      }
      index := t.to;
    }
    ScanEnd(line, c, out, cursor, end, block, all, last);
    out := out + line[cursor..];
  }

  /** `_redact_credential_assignments`, on the lines of the text with their endings. */
  method RedactAssignments(lines: seq<string>, c: Classes) returns (out: string)
    ensures out == RedactedText(lines, |lines|, c)
  {
    out := [];
    var block: Option<nat> := None;
    var i := 0;
    while i < |lines|
      invariant 0 <= i <= |lines|
      invariant out == RedactedText(lines, i, c) && block == BlockAfter(lines, i, c)
    {
      var line := lines[i];
      i := i + 1;
      if block.Some? {
        if Continues(line, block.value, c) {
          assert RedactedText(lines, i, c) == out + [] == out;
          continue;
        }
      }
      var redacted, opens := RedactLine(line, c);
      out := out + redacted;
      block := opens;
    }
  }
}
