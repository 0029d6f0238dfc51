/** Lines that assign a value to a key, as they are written, and what redaction makes of them. */
module CredentialLines {
  import opened Basics
  import opened Credentials

  // ----- characters

  predicate IsSign(x: char) {
    x == ':' || x == '='
  }

  predicate Blank(x: char) {
    x == ' ' || x == '\t'
  }

  predicate Quote(x: char) {
    x == '"' || x == '\''
  }

  /** A key may start behind such a character. */
  predicate Opens(x: char, c: Classes) {
    c.space(x) || x == '{' || x == ',' || x == '['
  }

  /** What Python says of these characters: white space is in no key, and neither are signs, quotes, brackets and block signs. */
  ghost predicate Sane(c: Classes) {
    && (forall x: char :: c.space(x) ==> !c.alnum(x))
    && !c.space('_') && !c.space('-')
    && c.space(' ') && c.space('\t')
    && forall x: char :: x in {'{', ',', '[', ':', '=', '"', '\'', '\\', '|', '>'} ==> !c.alnum(x) && !c.space(x)
  }

  predicate OfKey(x: char, c: Classes) {
    c.alnum(x) || x == '_' || x == '-'
  }

  predicate AllOfKey(s: string, c: Classes) {
    forall i :: 0 <= i < |s| ==> OfKey(s[i], c)
  }

  predicate AllBlank(s: string) {
    forall i :: 0 <= i < |s| ==> Blank(s[i])
  }

  lemma KeyCharIs(c: Classes, x: char)
    ensures KeyChar(c)(x) == OfKey(x, c)
  {
  }

  // ----- where a key, its sign and its value stand

  /** The key at `at` ends at `e`: bare, or closed in quotes. */
  predicate KeyStands(line: string, at: nat, e: nat, key: string, c: Classes) {
    && at < e <= |line| && key != [] && AllOfKey(key, c)
    && if IsQuote(line[at]) then e == at + |key| + 2 && line[at + 1..e - 1] == key && line[e - 1] == line[at]
       else e == at + |key| && line[at..e] == key && key != "-"
  }

  /** Behind the key stand blanks, the sign, blanks, and the value. */
  predicate SignStands(line: string, e: nat, s: nat, v: nat, end: nat) {
    && e <= s < v <= end <= |line| && IsSign(line[s])
    && (forall i :: e <= i < s ==> IsBlank(line[i])) && (forall i :: s < i < v ==> IsBlank(line[i]))
    && (v < end ==> !IsBlank(line[v]))
  }

  lemma SkipIs(line: string, index: nat, end: nat, p: char -> bool, r: nat)
    requires index <= r <= end <= |line| && (forall i :: index <= i < r ==> p(line[i])) && (r < end ==> !p(line[r]))
    ensures Skip(line, index, end, p) == r
  {
  }

  lemma {:induction false} QuotedIs(line: string, index: nat, quote: char, end: nat, q: nat)
    requires index <= q < end <= |line| && line[q] == quote && IsQuote(quote)
    requires forall i :: index <= i < q ==> line[i] != quote && line[i] != '\\'
    ensures QuotedFrom(line, index, quote, end) == (q + 1, true)
    decreases q - index
  {
    if index < q { QuotedIs(line, index + 1, quote, end, q); }
  }

  lemma QuotedKeyReads(line: string, at: nat, e: nat, key: string, end: nat, c: Classes)
    requires Sane(c) && KeyStands(line, at, e, key, c) && e <= end <= |line| && IsQuote(line[at])
    ensures KeyAt(line, at, end, c) == Some((key, e))
  {
    forall i | at + 1 <= i < e - 1 ensures line[i] != line[at] && line[i] != '\\' {
      assert line[i] == key[i - at - 1];
      assert OfKey(line[i], c);
    }
    QuotedIs(line, at + 1, line[at], end, e - 1);
  }

  lemma BareKeyReads(line: string, at: nat, e: nat, key: string, end: nat, c: Classes)
    requires KeyStands(line, at, e, key, c) && e <= end <= |line| && !IsQuote(line[at]) && (e < end ==> !OfKey(line[e], c))
    ensures KeyAt(line, at, end, c) == Some((key, e))
  {
    forall i | at <= i < e ensures KeyChar(c)(line[i]) {
      assert line[i] == key[i - at];
      KeyCharIs(c, line[i]);
    }
    if e < end { KeyCharIs(c, line[e]); }
    SkipIs(line, at, end, KeyChar(c), e);
  }

  lemma SignReads(line: string, key: string, column: nat, e: nat, s: nat, v: nat, end: nat)
    requires SignStands(line, e, s, v, end)
    ensures Assigned(line, key, column, e, end) == Some(Assignment(key, column, v))
  {
    assert !IsBlank(line[s]);
    SkipIs(line, e, end, IsBlank, s);
    SkipIs(line, s + 1, end, IsBlank, v);
  }

  lemma KeyReads(line: string, at: nat, e: nat, key: string, s: nat, v: nat, end: nat, c: Classes)
    requires Sane(c) && KeyStands(line, at, e, key, c) && SignStands(line, e, s, v, end)
    ensures KeyAt(line, at, end, c) == Some((key, e))
  {
    if IsQuote(line[at]) {
      QuotedKeyReads(line, at, e, key, end, c);
    } else {
      assert !OfKey(line[e], c) by { assert IsBlank(line[e]) || IsSign(line[e]); }
      BareKeyReads(line, at, e, key, end, c);
    }
  }

  // ----- the assignment is found at its key, and nowhere before it

  /** A key, its sign and its value, where a key may start. */
  ghost predicate AssignmentStands(line: string, at: nat, e: nat, key: string, s: nat, v: nat, end: nat, c: Classes) {
    && KeyStands(line, at, e, key, c) && SignStands(line, e, s, v, end)
    && (at == 0 || Opens(line[at - 1], c))
  }

  lemma DashInKey(line: string, at: nat, e: nat, key: string, c: Classes)
    requires KeyStands(line, at, e, key, c)
    ensures line[at] == '-' ==> |key| >= 2 && at + 1 < |line| && line[at + 1] == key[1]
  {
    assert !IsQuote(line[at]) ==> key[0] == line[at];
    assert |key| == 1 ==> key == [key[0]];
  }

  lemma KeyIsNoDash(line: string, at: nat, e: nat, key: string, end: nat, c: Classes)
    requires Sane(c) && KeyStands(line, at, e, key, c) && e < end <= |line|
    ensures PastDash(line, at, end, c) == at
  {
    DashInKey(line, at, e, key, c);
    assert line[at] == '-' ==> OfKey(key[1], c);
  }

  lemma FoundAtKey(line: string, at: nat, e: nat, key: string, s: nat, v: nat, end: nat, c: Classes)
    requires Sane(c) && AssignmentStands(line, at, e, key, s, v, end, c)
    ensures AssignmentAt(line, at, end, c) == Some(Assignment(key, at, v))
  {
    KeyIsNoDash(line, at, e, key, end, c);
    KeyReads(line, at, e, key, s, v, end, c);
    SignReads(line, key, at, e, s, v, end);
  }

  /** Nothing from `from` on before `at` is a sign or a quote. */
  predicate Quiet(line: string, from: nat, at: nat)
    requires at <= |line|
  {
    forall i :: from <= i < at ==> !IsSign(line[i]) && !IsQuote(line[i])
  }

  /** The key's first character is neither white space nor a blank nor a sign. */
  lemma KeyStarts(line: string, at: nat, e: nat, key: string, c: Classes)
    requires Sane(c) && KeyStands(line, at, e, key, c)
    ensures !c.space(line[at]) && !IsBlank(line[at]) && !IsSign(line[at])
  {
    if !IsQuote(line[at]) { assert line[at] == key[0] && OfKey(key[0], c); }
  }

  /** The dash of a list item leads to the key at most. */
  lemma DashStops(line: string, p: nat, at: nat, end: nat, c: Classes)
    requires p < at < end <= |line| && !c.space(line[at])
    ensures PastDash(line, p, end, c) <= at
  {
  }

  /** A bare key before the opening character ends before it, and no sign follows. */
  lemma NoKeyBefore(line: string, q: nat, at: nat, end: nat, c: Classes)
    requires Sane(c) && q < at < end <= |line| && Quiet(line, q, at) && Opens(line[at - 1], c)
    requires !IsBlank(line[at]) && !IsSign(line[at])
    ensures var k := KeyAt(line, q, end, c);
            k.Some? && (k.value.0 == [] || Assigned(line, k.value.0, q, k.value.1, end).None?)
  {
    var e := Skip(line, q, end, KeyChar(c));
    KeyCharIs(c, line[at - 1]);
    assert !OfKey(line[at - 1], c);
    assert e < at;
    var sign := Skip(line, e, end, IsBlank);
    assert sign <= at && !IsSign(line[sign]);
  }

  /** Before the key there is no assignment but, from the dash of its list item, the key's own. */
  lemma OnlyTheKey(line: string, p: nat, at: nat, e: nat, key: string, s: nat, v: nat, end: nat, c: Classes)
    requires Sane(c) && AssignmentStands(line, at, e, key, s, v, end, c) && p < at && Quiet(line, p, at)
    ensures var a := AssignmentAt(line, p, end, c); a.None? || a == Some(Assignment(key, at, v))
  {
    if MayStart(line, p, c) {
      KeyStarts(line, at, e, key, c);
      DashStops(line, p, at, end, c);
      var q := PastDash(line, p, end, c);
      if q < at {
        NoKeyBefore(line, q, at, end, c);
      } else {
        KeyReads(line, at, e, key, s, v, end, c);
        SignReads(line, key, at, e, s, v, end);
      }
    }
  }

  // ----- the tiles up to the value

  /** What stands in the value's place, and behind it: for a credential the value is replaced, otherwise it is scanned on. */
  function FromValue(line: string, key: string, v: nat, end: nat, c: Classes): string
    requires v <= end <= |line|
  {
    if c.credential(key) then REDACTED + Render(line, Tiles(line, ValueEnd(line, v, end, c), end, c))
    else Render(line, Tiles(line, v, end, c))
  }

  lemma TilesAtKey(line: string, p: nat, end: nat, a: Assignment, c: Classes)
    requires p < end <= |line| && AssignmentAt(line, p, end, c) == Some(a)
    ensures Tiles(line, p, end, c) ==
            if c.credential(a.key)
            then [Secret(p, a.column, a.value, ValueEnd(line, a.value, end, c))] + Tiles(line, ValueEnd(line, a.value, end, c), end, c)
            else [Plain(p, a.value)] + Tiles(line, a.value, end, c)
  {
  }

  lemma KeyTile(line: string, p: nat, at: nat, v: nat, end: nat, key: string, c: Classes, text: string)
    requires p < v <= end <= |line| && AssignmentAt(line, p, end, c) == Some(Assignment(key, at, v))
    requires text == FromValue(line, key, v, end, c)
    ensures Render(line, Tiles(line, p, end, c)) == line[p..v] + text
  {
    TilesAtKey(line, p, end, Assignment(key, at, v), c);
    if c.credential(key) {
      var to := ValueEnd(line, v, end, c);
      SecretFirst(line, Secret(p, at, v, to), Tiles(line, to, end, c), text);
    } else {
      OneTile(line, Plain(p, v), Tiles(line, v, end, c));
    }
  }

  lemma SecretFirst(line: string, t: Tile, rest: seq<Tile>, text: string)
    requires t.Secret? && t.from <= t.value <= t.to <= |line| && text == REDACTED + Render(line, rest)
    ensures Render(line, [t] + rest) == line[t.from..t.value] + text
  {
    OneTile(line, t, rest);
    Regrouped(line[t.from..t.value], REDACTED, Render(line, rest));
  }

  lemma Regrouped(x: string, y: string, z: string)
    ensures (x + y) + z == x + (y + z)
  {
  }

  lemma OneTile(line: string, t: Tile, rest: seq<Tile>)
    ensures Render(line, [t] + rest) == RenderTile(line, t) + Render(line, rest)
  {
    assert ([t] + rest)[1..] == rest;
  }

  lemma PlainTile(line: string, p: nat, end: nat, c: Classes)
    requires p < end <= |line| && AssignmentAt(line, p, end, c).None? && !IsQuote(line[p])
    ensures Render(line, Tiles(line, p, end, c)) == [line[p]] + Render(line, Tiles(line, p + 1, end, c))
  {
    var rest := Tiles(line, p + 1, end, c);
    assert Tiles(line, p, end, c) == [Plain(p, p + 1)] + rest;
    OneTile(line, Plain(p, p + 1), rest);
    assert line[p..p + 1] == [line[p]];
  }

  /** Where an assignment stands. */
  datatype Spot = Spot(at: nat, e: nat, key: string, s: nat, v: nat)

  ghost predicate Stands(line: string, end: nat, x: Spot, c: Classes) {
    AssignmentStands(line, x.at, x.e, x.key, x.s, x.v, end, c)
  }

  lemma FirstFinds(line: string, p: nat, end: nat, x: Spot, c: Classes)
    requires Sane(c) && Stands(line, end, x, c) && p <= x.at && Quiet(line, p, x.at)
    ensures var a := AssignmentAt(line, p, end, c);
            a == Some(Assignment(x.key, x.at, x.v)) || (a.None? && p < x.at && !IsQuote(line[p]))
  {
    if p == x.at {
      FoundAtKey(line, x.at, x.e, x.key, x.s, x.v, end, c);
    } else {
      OnlyTheKey(line, p, x.at, x.e, x.key, x.s, x.v, end, c);
    }
  }

  /** The scan finds something, or shows one character and goes on. */
  ghost predicate ShowsAt(line: string, show: nat -> string, found: bool, q: nat, at: nat, v: nat, text: string)
    requires q <= at <= v <= |line|
  {
    if found then show(q) == line[q..v] + text else q < at && show(q) == [line[q]] + show(q + 1)
  }

  ghost predicate ShowsOn(line: string, show: nat -> string, found: nat -> bool, p: nat, at: nat, v: nat, text: string)
    requires p <= at <= v <= |line|
  {
    forall q: nat {:trigger found(q)} :: p <= q <= at ==> ShowsAt(line, show, found(q), q, at, v, text)
  }

  lemma {:induction false} Runs(line: string, show: nat -> string, found: nat -> bool, p: nat, at: nat, v: nat, text: string)
    requires p <= at <= v <= |line| && ShowsOn(line, show, found, p, at, v, text)
    ensures show(p) == line[p..v] + text
    decreases at - p
  {
    if !found(p) {
      Runs(line, show, found, p + 1, at, v, text);
      assert [line[p]] + (line[p + 1..v] + text) == line[p..v] + text;
    }
  }

  function Show(line: string, end: nat, c: Classes): nat -> string
    requires end <= |line|
  {
    (q: nat) => Render(line, Tiles(line, q, end, c))
  }

  function Found(line: string, end: nat, c: Classes): nat -> bool
    requires end <= |line|
  {
    (q: nat) => q < end && AssignmentAt(line, q, end, c).Some?
  }

  lemma StepsShow(line: string, p: nat, end: nat, x: Spot, c: Classes, text: string)
    requires Sane(c) && Stands(line, end, x, c) && p <= x.at && Quiet(line, p, x.at)
    requires text == FromValue(line, x.key, x.v, end, c)
    ensures ShowsOn(line, Show(line, end, c), Found(line, end, c), p, x.at, x.v, text)
  {
    var show, found := Show(line, end, c), Found(line, end, c);
    forall q: nat {:trigger found(q)} | p <= q <= x.at ensures ShowsAt(line, show, found(q), q, x.at, x.v, text) {
      OneStep(line, q, end, x, c, text, show);
    }
  }

  /** A quiet text is given as it is up to the value of the assignment behind it. */
  lemma TilesToValue(line: string, p: nat, end: nat, x: Spot, c: Classes, text: string)
    requires Sane(c) && Stands(line, end, x, c) && p <= x.at && Quiet(line, p, x.at)
    requires text == FromValue(line, x.key, x.v, end, c)
    ensures Render(line, Tiles(line, p, end, c)) == line[p..x.v] + text
  {
    StepsShow(line, p, end, x, c, text);
    Runs(line, Show(line, end, c), Found(line, end, c), p, x.at, x.v, text);
  }

  lemma OneStep(line: string, q: nat, end: nat, x: Spot, c: Classes, text: string, show: nat -> string)
    requires Sane(c) && Stands(line, end, x, c) && q <= x.at && Quiet(line, q, x.at) && show == Show(line, end, c)
    requires text == FromValue(line, x.key, x.v, end, c)
    ensures ShowsAt(line, show, AssignmentAt(line, q, end, c).Some?, q, x.at, x.v, text)
  {
    FirstFinds(line, q, end, x, c);
    if AssignmentAt(line, q, end, c).None? {
      PlainTile(line, q, end, c);
    } else {
      KeyTile(line, q, x.at, x.v, end, x.key, c, text);
    }
  }

  // ----- the value

  /** Every assignment has its sign. */
  lemma HasSign(line: string, p: nat, end: nat, c: Classes) returns (j: nat)
    requires p < end <= |line| && AssignmentAt(line, p, end, c).Some?
    ensures p <= j < end && IsSign(line[j])
  {
    var q := PastDash(line, p, end, c);
    var k := KeyAt(line, q, end, c).value;
    j := Skip(line, k.1, end, IsBlank);
  }

  /** No sign stands behind a character that opens a key. */
  predicate NoLater(text: string, c: Classes) {
    forall i, j :: 0 <= i < j < |text| && Opens(text[i], c) ==> !IsSign(text[j])
  }

  predicate NoQuote(text: string) {
    forall i :: 0 <= i < |text| ==> !Quote(text[i])
  }

  lemma NothingLater(line: string, v: nat, p: nat, end: nat, value: string, c: Classes)
    requires v < p < end <= |line| && line[v..end] == value && NoLater(value, c)
    ensures AssignmentAt(line, p, end, c).None?
  {
    assert value[p - 1 - v] == line[p - 1];
    forall j | p <= j < end && Opens(line[p - 1], c) ensures !IsSign(line[j]) { assert value[j - v] == line[j]; }
    if AssignmentAt(line, p, end, c).Some? {
      var j := HasSign(line, p, end, c);
    }
  }

  lemma {:induction false} ValueRuns(line: string, v: nat, index: nat, end: nat, value: string, c: Classes)
    requires v <= index <= end <= |line| && line[v..end] == value && NoLater(value, c) && NoQuote(value)
    ensures ValueFrom(line, v, index, end, c) == end
    decreases end - index
  {
    if index < end {
      assert value[index - v] == line[index];
      if index > v { NothingLater(line, v, index, end, value, c); }
      ValueRuns(line, v, index + 1, end, value, c);
    }
  }

  /** Such a value goes on to the end of the line. */
  lemma ValueIsRest(line: string, v: nat, end: nat, value: string, c: Classes)
    requires v <= end <= |line| && line[v..end] == value && NoLater(value, c) && NoQuote(value)
    ensures ValueEnd(line, v, end, c) == end
  {
    if v < end {
      assert value[0] == line[v];
      ValueRuns(line, v, v, end, value, c);
    }
  }

  // ----- a line without a sign

  lemma {:induction false} SignlessTiles(line: string, index: nat, end: nat, c: Classes)
    requires index <= end <= |line| && forall i :: index <= i < end ==> !IsSign(line[i])
    ensures AllPlain(Tiles(line, index, end, c))
    decreases end - index
  {
    if index < end {
      NoAssignment(line, index, end, c);
      var next := if IsQuote(line[index]) then QuotedEnd(line, index, end).0 else index + 1;
      SignlessTiles(line, next, end, c);
      assert Tiles(line, index, end, c) == [Plain(index, next)] + Tiles(line, next, end, c);
    }
  }

  lemma NoAssignment(line: string, index: nat, end: nat, c: Classes)
    requires index < end <= |line| && forall i :: index <= i < end ==> !IsSign(line[i])
    ensures AssignmentAt(line, index, end, c).None?
  {
    if AssignmentAt(line, index, end, c).Some? {
      var j := HasSign(line, index, end, c);
    }
  }

  lemma SignlessShown(line: string, index: nat, end: nat, c: Classes)
    requires index <= end <= |line| && forall i :: index <= i < end ==> !IsSign(line[i])
    ensures Render(line, Tiles(line, index, end, c)) == line[index..end]
  {
    SignlessTiles(line, index, end, c);
    TilesCover(line, index, end, c);
    NothingSecret(line, Tiles(line, index, end, c), index, end);
  }

  /** A line that holds no ':' and no '=' is given out as it is. */
  lemma SignlessKept(line: string, c: Classes)
    requires ':' !in line && '=' !in line
    ensures RedactedLine(line, c) == line
  {
    var end := ContentEnd(line, |line|);
    SignlessTiles(line, 0, end, c);
    PlainLineKept(line, c);
  }

  // ----- whole lines, as they are written

  /** A key, bare or closed in quotes. */
  predicate KeyText(text: string, key: string, c: Classes) {
    && key != [] && AllOfKey(key, c)
    && ((text == key && key != "-") || text == "\"" + key + "\"" || text == "'" + key + "'")
  }

  /** Text that a key may follow: without a sign or a quote, and either empty or ended by white space, '{', ',' or '['. */
  predicate Before(text: string, c: Classes) {
    && (forall i :: 0 <= i < |text| ==> !IsSign(text[i]) && !Quote(text[i]))
    && (text == "" || Opens(text[|text| - 1], c))
  }

  /** A value: no quote, no sign behind a character that could open another key. */
  predicate ValueText(text: string, c: Classes) {
    && NoQuote(text) && NoLater(text, c) && (text != "" ==> !Blank(text[0]))
  }

  predicate IsEnding(text: string) {
    forall i :: 0 <= i < |text| ==> text[i] == '\r' || text[i] == '\n'
  }

  predicate EndsInText(text: string) {
    text != "" ==> text[|text| - 1] != '\r' && text[|text| - 1] != '\n'
  }

  /** What stands before the value. */
  datatype Assigning = Assigning(head: string, keyText: string, key: string, before: string, sign: char, behind: string)

  function UpToValue(a: Assigning): string {
    a.head + a.keyText + a.before + [a.sign] + a.behind
  }

  predicate WellWritten(a: Assigning, c: Classes) {
    Before(a.head, c) && KeyText(a.keyText, a.key, c) && AllBlank(a.before) && IsSign(a.sign) && AllBlank(a.behind)
  }

  lemma {:induction false} ContentIs(line: string, end: nat, n: nat)
    requires n <= end <= |line| && IsEnding(line[n..end]) && EndsInText(line[..n])
    ensures ContentEnd(line, end) == n
    decreases end
  {
    if n < end {
      assert line[n..end][end - 1 - n] == line[end - 1];
      assert line[n..end][..end - 1 - n] == line[n..end - 1];
      ContentIs(line, end - 1, n);
    } else if n > 0 {
      assert line[..n][n - 1] == line[n - 1];
    }
  }

  lemma KeyTextStands(line: string, at: nat, e: nat, text: string, key: string, c: Classes)
    requires Sane(c) && KeyText(text, key, c) && at <= e <= |line| && line[at..e] == text
    ensures KeyStands(line, at, e, key, c)
  {
    assert line[at] == text[0];
    if IsQuote(text[0]) {
      QuotedStands(line, at, e, text, key, c);
    } else {
      assert text == key;
    }
  }

  lemma QuotedStands(line: string, at: nat, e: nat, text: string, key: string, c: Classes)
    requires Sane(c) && KeyText(text, key, c) && at < e <= |line| && line[at..e] == text && IsQuote(text[0])
    ensures e == at + |key| + 2 && line[at + 1..e - 1] == key && line[e - 1] == line[at]
  {
    assert OfKey(key[0], c);
    assert |text| == |key| + 2 && text[|text| - 1] == text[0] == line[at];
    assert line[e - 1] == line[at..e][|text| - 1];
    forall k | 0 <= k < |key| ensures line[at + 1 + k] == key[k] {
      assert text[1 + k] == key[k] && line[at..e][1 + k] == line[at + 1 + k];
    }
  }

  lemma FiveSlices(line: string, a: string, b: string, d: string, x: string, f: string, rest: string)
    returns (i: nat, j: nat, k: nat, l: nat, m: nat)
    requires line == a + b + d + x + f + rest
    ensures i == |a| && j == i + |b| && k == j + |d| && l == k + |x| && m == l + |f| && m <= |line|
    ensures line[..i] == a && line[i..j] == b && line[j..k] == d && line[k..l] == x && line[l..m] == f && line[m..] == rest
    ensures line[..m] == a + b + d + x + f
  {
    i, j, k := |a|, |a| + |b|, |a| + |b| + |d|;
    l, m := k + |x|, k + |x| + |f|;
  }

  lemma AllBlankAt(line: string, i: nat, j: nat, text: string)
    requires i <= j <= |line| && line[i..j] == text && AllBlank(text)
    ensures forall k :: i <= k < j ==> IsBlank(line[k])
  {
    forall k | i <= k < j ensures IsBlank(line[k]) { assert text[k - i] == line[k]; }
  }

  lemma QuietAt(line: string, i: nat, text: string, c: Classes)
    requires i <= |line| && line[..i] == text && Before(text, c)
    ensures Quiet(line, 0, i) && (i == 0 || Opens(line[i - 1], c))
  {
    forall k | 0 <= k < i ensures !IsSign(line[k]) && !IsQuote(line[k]) { assert text[k] == line[k]; }
    if i > 0 { assert text[i - 1] == line[i - 1]; }
  }

  /** Where the parts of a written line stand. */
  lemma Places(a: Assigning, rest: string, line: string, end: nat, c: Classes) returns (x: Spot)
    requires Sane(c) && WellWritten(a, c) && line == UpToValue(a) + rest && |UpToValue(a)| <= end <= |line|
    requires |UpToValue(a)| < end ==> !IsBlank(line[|UpToValue(a)|])
    ensures Stands(line, end, x, c) && Quiet(line, 0, x.at) && x.at == |a.head| && x.key == a.key
    ensures x.v == |UpToValue(a)| && line[..x.v] == UpToValue(a) && line[x.v..] == rest
  {
    var i, j, k, l, m := FiveSlices(line, a.head, a.keyText, a.before, [a.sign], a.behind, rest);
    x := Spot(i, j, a.key, k, m);
    KeyTextStands(line, i, j, a.keyText, a.key, c);
    AllBlankAt(line, j, k, a.before);
    AllBlankAt(line, l, m, a.behind);
    assert line[k] == line[k..l][0] == a.sign;
    QuietAt(line, i, a.head, c);
  }

  lemma ContentEnds(a: Assigning, value: string, ending: string, line: string, c: Classes) returns (end: nat)
    requires WellWritten(a, c) && EndsInText(value) && IsEnding(ending) && line == UpToValue(a) + value + ending
    ensures end == ContentEnd(line, |line|) && end == |UpToValue(a)| + |value| && end <= |line|
    ensures line[|UpToValue(a)|..end] == value && line[end..] == ending
  {
    var up := UpToValue(a);
    end := |up| + |value|;
    assert line[|up|..end] == value && line[end..|line|] == ending && line[..end] == up + value;
    UpEndsInText(a, c);
    assert value != "" ==> (up + value)[end - 1] == value[|value| - 1];
    assert value == "" ==> up + value == up;
    ContentIs(line, |line|, end);
  }

  lemma UpEndsInText(a: Assigning, c: Classes)
    requires WellWritten(a, c)
    ensures UpToValue(a) != "" && EndsInText(UpToValue(a))
  {
    var up := UpToValue(a);
    assert a.behind != "" ==> up[|up| - 1] == a.behind[|a.behind| - 1];
    assert a.behind == "" ==> up[|up| - 1] == a.sign;
  }

  /** A credential assigned on a line is given out redacted: the output is the text up to the value, the redaction, and the
      line's ending, whichever the sign, the blanks around it and the quotes of the key. */
  lemma CredentialRedacted(a: Assigning, value: string, ending: string, line: string, c: Classes)
    requires Sane(c) && WellWritten(a, c) && c.credential(a.key)
    requires ValueText(value, c) && EndsInText(value) && IsEnding(ending) && line == UpToValue(a) + value + ending
    ensures RedactedLine(line, c) == UpToValue(a) + "<redacted>" + ending
  {
    var end := ContentEnds(a, value, ending, line, c);
    assert line == UpToValue(a) + (value + ending);
    assert value != "" ==> line[|UpToValue(a)|] == value[0];
    var x := Places(a, value + ending, line, end, c);
    RestIsValue(line, x.v, end, value, a.key, c);
    GivenOut(line, end, x, c, UpToValue(a), REDACTED, ending);
  }

  lemma RestIsValue(line: string, v: nat, end: nat, value: string, key: string, c: Classes)
    requires v <= end <= |line| && line[v..end] == value && NoLater(value, c) && NoQuote(value) && c.credential(key)
    ensures FromValue(line, key, v, end, c) == REDACTED
  {
    ValueIsRest(line, v, end, value, c);
    assert Tiles(line, end, end, c) == [];
    assert REDACTED + Render(line, []) == REDACTED;
  }

  // ----- a quoted value

  predicate Quoted(text: string, quote: char) {
    && |text| >= 2 && Quote(quote) && text[0] == quote && text[|text| - 1] == quote
    && forall i :: 0 < i < |text| - 1 ==> text[i] != quote && text[i] != '\\'
  }

  predicate NoSign(text: string) {
    forall i :: 0 <= i < |text| ==> !IsSign(text[i])
  }

  lemma QuotedEnds(line: string, v: nat, to: nat, end: nat, text: string, quote: char, c: Classes)
    requires v <= to <= end <= |line| && line[v..to] == text && Quoted(text, quote)
    ensures ValueEnd(line, v, end, c) == to
  {
    var q := to - 1;
    assert line[v] == text[0] && line[q] == text[|text| - 1];
    forall i | v + 1 <= i < q ensures line[i] != quote && line[i] != '\\' { assert text[i - v] == line[i]; }
    QuotedIs(line, v + 1, quote, end, q);
  }

  /** Of a quoted value the quoted text goes and what stands behind it stays, if it assigns nothing. */
  lemma QuotedRedacted(a: Assigning, value: string, quote: char, tail: string, ending: string, line: string, c: Classes)
    requires Sane(c) && WellWritten(a, c) && c.credential(a.key) && Quoted(value, quote) && NoSign(tail)
    requires EndsInText(tail) && IsEnding(ending) && line == UpToValue(a) + (value + tail) + ending
    ensures RedactedLine(line, c) == UpToValue(a) + "<redacted>" + tail + ending
  {
    assert (value + tail)[|value + tail| - 1] == if tail == "" then value[|value| - 1] else tail[|tail| - 1];
    var end := ContentEnds(a, value + tail, ending, line, c);
    var up := UpToValue(a);
    Regrouped(up, value + tail, ending);
    assert line[|up|] == value[0];
    var x := Places(a, value + tail + ending, line, end, c);
    FromQuoted(line, x.v, value, quote, tail, end, a.key, c);
    GivenOut(line, end, x, c, up, REDACTED + tail, ending);
    Regrouped(up, REDACTED, tail);
  }

  lemma FromQuoted(line: string, v: nat, value: string, quote: char, tail: string, end: nat, key: string, c: Classes)
    requires v <= end <= |line| && line[v..end] == value + tail && Quoted(value, quote) && NoSign(tail) && c.credential(key)
    ensures FromValue(line, key, v, end, c) == REDACTED + tail
  {
    var to := TailStands(line, v, value, tail, end);
    QuotedEnds(line, v, to, end, value, quote, c);
    SignlessAt(line, to, end, tail, c);
  }

  /** The whole line, when what stands from the value on is known. */
  lemma GivenOut(line: string, end: nat, x: Spot, c: Classes, up: string, text: string, ending: string)
    requires Sane(c) && end == ContentEnd(line, |line|) && Stands(line, end, x, c) && Quiet(line, 0, x.at)
    requires line[..x.v] == up && line[end..] == ending && text == FromValue(line, x.key, x.v, end, c)
    ensures RedactedLine(line, c) == up + text + ending
  {
    TilesToValue(line, 0, end, x, c, text);
    assert line[0..x.v] == up;
  }

  lemma TailStands(line: string, v: nat, value: string, tail: string, end: nat) returns (to: nat)
    requires v <= end <= |line| && line[v..end] == value + tail
    ensures to == v + |value| && to <= end && line[v..to] == value && line[to..end] == tail
  {
    to := v + |value|;
    var s := line[v..end];
    assert s[..|value|] == value && s[|value|..] == tail;
  }

  lemma SignlessAt(line: string, from: nat, end: nat, text: string, c: Classes)
    requires from <= end <= |line| && line[from..end] == text && NoSign(text)
    ensures Render(line, Tiles(line, from, end, c)) == text
  {
    forall i | from <= i < end ensures !IsSign(line[i]) { assert text[i - from] == line[i]; }
    SignlessShown(line, from, end, c);
  }

  // ----- two assignments on a line

  /** A value that is one word: no character in it could open a key. */
  predicate Word(text: string, c: Classes) {
    text != "" && forall i :: 0 <= i < |text| ==> !Opens(text[i], c) && !Quote(text[i])
  }

  /** What separates two assignments: a comma, blanks, or both. */
  predicate Separates(gap: string) {
    gap != "" && (gap[0] == ',' || Blank(gap[0])) && forall i :: 0 < i < |gap| ==> Blank(gap[i])
  }

  lemma NoKeyInGap(line: string, p: nat, end: nat, c: Classes)
    requires Sane(c) && p < end <= |line| && IsBlank(line[p])
    ensures AssignmentAt(line, p, end, c).None?
  {
    KeyCharIs(c, line[p]);
    assert !OfKey(line[p], c);
    assert PastDash(line, p, end, c) == p;
    SkipIs(line, p, end, KeyChar(c), p);
    assert line[p..p] == [];
  }

  /** The word and the separator stand there, and hold no assignment. */
  ghost predicate WordStands(line: string, v: nat, w: nat, at: nat, c: Classes) {
    && v < w < at < |line|
    && (forall i :: v <= i < w ==> !Opens(line[i], c) && !IsQuote(line[i]))
    && (line[w] == ',' || IsBlank(line[w])) && forall i :: w < i < at ==> IsBlank(line[i])
  }

  lemma NothingInWord(line: string, v: nat, w: nat, at: nat, p: nat, end: nat, c: Classes)
    requires Sane(c) && WordStands(line, v, w, at, c) && v < p < at && at < end <= |line|
    ensures AssignmentAt(line, p, end, c).None? && !IsQuote(line[p])
  {
    if p > w {
      NoKeyInGap(line, p, end, c);
    } else {
      assert !Opens(line[p - 1], c);
    }
  }

  lemma OneOn(line: string, v: nat, index: nat, end: nat, c: Classes)
    requires v <= index < end <= |line| && !IsQuote(line[index])
    requires index == v || AssignmentAt(line, index, end, c).None?
    ensures ValueFrom(line, v, index, end, c) == ValueFrom(line, v, index + 1, end, c)
  {
  }

  ghost predicate GoesOn(run: nat -> nat, q: nat) {
    run(q) == run(q + 1)
  }

  lemma {:induction false} RunsOn(run: nat -> nat, p: nat, at: nat)
    requires p <= at && forall q: nat :: p <= q < at ==> GoesOn(run, q)
    ensures run(p) == run(at)
    decreases at - p
  {
    if p < at {
      assert GoesOn(run, p);
      RunsOn(run, p + 1, at);
    }
  }

  function Running(line: string, v: nat, end: nat, c: Classes): nat -> nat
    requires v <= end <= |line|
  {
    (q: nat) => if q < v then v else ValueFrom(line, v, q, end, c)
  }

  lemma WordRuns(line: string, v: nat, w: nat, at: nat, end: nat, c: Classes)
    requires Sane(c) && WordStands(line, v, w, at, c) && at < end <= |line|
    ensures ValueFrom(line, v, v, end, c) == ValueFrom(line, v, at, end, c)
  {
    var run := Running(line, v, end, c);
    forall q: nat | v <= q < at ensures GoesOn(run, q) {
      if q > v { NothingInWord(line, v, w, at, q, end, c); }
      OneOn(line, v, q, end, c);
    }
    RunsOn(run, v, at);
  }

  lemma {:induction false} TrimIs(line: string, v: nat, i: nat, n: nat)
    requires v <= n <= i <= |line| && (forall k :: n <= k < i ==> IsBlank(line[k])) && (n > v ==> !IsBlank(line[n - 1]))
    ensures Trim(line, v, i) == n
    decreases i
  {
    if i > n { TrimIs(line, v, i - 1, n); }
  }

  /** A word ends where it ends: the separator is not part of the value. */
  lemma WordEnds(line: string, v: nat, w: nat, at: nat, end: nat, c: Classes)
    requires Sane(c) && WordStands(line, v, w, at, c) && at < end <= |line| && AssignmentAt(line, at, end, c).Some?
    ensures ValueEnd(line, v, end, c) == w
  {
    WordRuns(line, v, w, at, end, c);
    assert !IsBlank(line[w - 1]) && line[w - 1] != ',' by { assert !Opens(line[w - 1], c); }
    TrimIs(line, v, at, if line[w] == ',' then w + 1 else w);
  }

  /** What is given out in the place of a value. */
  function Shown(key: string, value: string, c: Classes): string {
    if c.credential(key) then "<redacted>" else value
  }

  /** The second assignment, whose value goes on to the end. */
  lemma LastGiven(line: string, x: Spot, end: nat, value: string, c: Classes)
    requires x.v <= end <= |line| && line[x.v..end] == value && ValueText(value, c) && (c.credential(x.key) || NoSign(value))
    ensures FromValue(line, x.key, x.v, end, c) == Shown(x.key, value, c)
  {
    if c.credential(x.key) { RestIsValue(line, x.v, end, value, x.key, c); } else { SignlessAt(line, x.v, end, value, c); }
  }

  /** The first one: the separator and the second assignment behind it are given out as they stand. */
  lemma FirstGiven(line: string, v: nat, w: nat, y: Spot, end: nat, text: string, key: string, c: Classes)
    requires Sane(c) && WordStands(line, v, w, y.at, c) && Stands(line, end, y, c) && Quiet(line, v, y.at)
    requires y.v <= end <= |line| && text == FromValue(line, y.key, y.v, end, c)
    ensures FromValue(line, key, v, end, c) == Shown(key, line[v..w], c) + line[w..y.v] + text
  {
    if c.credential(key) {
      FirstSecret(line, v, w, y, end, text, key, c);
    } else {
      FirstPlain(line, v, w, y, end, text, key, c);
    }
  }

  lemma FirstPlain(line: string, v: nat, w: nat, y: Spot, end: nat, text: string, key: string, c: Classes)
    requires Sane(c) && v <= w <= y.at && Stands(line, end, y, c) && Quiet(line, v, y.at)
    requires y.v <= end <= |line| && text == FromValue(line, y.key, y.v, end, c) && !c.credential(key)
    ensures FromValue(line, key, v, end, c) == line[v..w] + line[w..y.v] + text
  {
    TilesToValue(line, v, end, y, c, text);
    TwoSlices(line, v, w, y.v);
  }

  lemma TwoSlices(line: string, i: nat, j: nat, k: nat)
    requires i <= j <= k <= |line|
    ensures line[i..j] + line[j..k] == line[i..k]
  {
  }

  lemma FirstSecret(line: string, v: nat, w: nat, y: Spot, end: nat, text: string, key: string, c: Classes)
    requires Sane(c) && WordStands(line, v, w, y.at, c) && Stands(line, end, y, c) && Quiet(line, v, y.at)
    requires y.v <= end <= |line| && text == FromValue(line, y.key, y.v, end, c) && c.credential(key)
    ensures FromValue(line, key, v, end, c) == REDACTED + line[w..y.v] + text
  {
    FoundAtKey(line, y.at, y.e, y.key, y.s, y.v, end, c);
    WordEnds(line, v, w, y.at, end, c);
    SecretGoes(line, v, w, end, key, c);
    TilesToValue(line, w, end, y, c, text);
    Regrouped(REDACTED, line[w..y.v], text);
  }

  lemma SecretGoes(line: string, v: nat, w: nat, end: nat, key: string, c: Classes)
    requires v <= w <= end <= |line| && ValueEnd(line, v, end, c) == w && c.credential(key)
    ensures FromValue(line, key, v, end, c) == REDACTED + Render(line, Tiles(line, w, end, c))
  {
  }

  lemma FourSlices(line: string, from: nat, a: string, b: string, d: string, x: string, rest: string)
    returns (i: nat, j: nat, k: nat, l: nat)
    requires from <= |line| && line[from..] == a + b + d + x + rest
    ensures i == from + |a| && j == i + |b| && k == j + |d| && l == k + |x| && l <= |line|
    ensures line[from..i] == a && line[i..j] == b && line[j..k] == d && line[k..l] == x && line[l..] == rest
  {
    i, j := from + |a|, from + |a| + |b|;
    k, l := j + |d|, j + |d| + |x|;
    var t := line[from..];
    assert t[..|a|] == a && t[|a|..|a| + |b|] == b && t[|a| + |b|..|a| + |b| + |d|] == d;
    assert t[|a| + |b| + |d|..|a| + |b| + |d| + |x|] == x && t[|a| + |b| + |d| + |x|..] == rest;
  }

  /** The assignment that follows: its key stands right behind the separator. */
  lemma PlacesBehind(b: Assigning, rest: string, line: string, from: nat, end: nat, c: Classes) returns (y: Spot)
    requires Sane(c) && WellWritten(b, c) && b.head == "" && 0 < from <= |line| && Opens(line[from - 1], c)
    requires line[from..] == UpToValue(b) + rest && from + |UpToValue(b)| <= end <= |line|
    requires from + |UpToValue(b)| < end ==> rest != "" && !IsBlank(rest[0])
    ensures Stands(line, end, y, c) && y.at == from && y.key == b.key && y.v == from + |UpToValue(b)|
    ensures line[from..y.v] == UpToValue(b) && line[y.v..] == rest
  {
    assert UpToValue(b) == b.keyText + b.before + [b.sign] + b.behind;
    var e, s, l, m := FourSlices(line, from, b.keyText, b.before, [b.sign], b.behind, rest);
    y := Spot(from, e, b.key, s, m);
    KeyTextStands(line, from, e, b.keyText, b.key, c);
    AllBlankAt(line, e, s, b.before);
    AllBlankAt(line, l, m, b.behind);
    assert line[s] == line[s..l][0] == b.sign;
    assert m < |line| ==> line[m] == line[m..][0];
    assert line[from..m] == line[from..][..m - from];
  }

  lemma WordIsThere(line: string, v: nat, w: nat, at: nat, word: string, gap: string, c: Classes)
    requires Sane(c) && v <= w <= at < |line| && line[v..w] == word && line[w..at] == gap && Word(word, c) && Separates(gap)
    ensures WordStands(line, v, w, at, c) && Opens(line[at - 1], c)
  {
    forall i | v <= i < w ensures !Opens(line[i], c) && !IsQuote(line[i]) { assert word[i - v] == line[i]; }
    assert gap[0] == line[w];
    forall i | w < i < at ensures IsBlank(line[i]) { assert gap[i - w] == line[i]; }
    assert IsBlank(line[at - 1]) || line[at - 1] == ',';
  }

  /** No sign in the word or the separator. */
  lemma QuietWord(line: string, v: nat, w: nat, at: nat, word: string, gap: string)
    requires v <= w <= at <= |line| && line[v..w] == word && line[w..at] == gap && NoSign(word) && NoQuote(word) && Separates(gap)
    ensures Quiet(line, v, at)
  {
    forall i | v <= i < at ensures !IsSign(line[i]) && !IsQuote(line[i]) {
      if i < w { assert word[i - v] == line[i]; } else { assert gap[i - w] == line[i]; }
    }
  }

  lemma Middle(line: string, v: nat, word: string, gap: string, rest: string) returns (w: nat, at: nat)
    requires v <= |line| && line[v..] == word + gap + rest
    ensures w == v + |word| && at == w + |gap| && at <= |line|
    ensures line[v..w] == word && line[w..at] == gap && line[at..] == rest
  {
    w, at := v + |word|, v + |word| + |gap|;
    var t := line[v..];
    assert t[..|word|] == word && t[|word|..|word| + |gap|] == gap && t[|word| + |gap|..] == rest;
  }

  /** Two assignments on a line: each value is redacted iff its key is a credential's, and everything else, the separator
      between them included, is given out as it is. */
  lemma TwoAssignments(a: Assigning, word: string, gap: string, b: Assigning, value: string, ending: string, line: string, c: Classes)
    requires Sane(c) && WellWritten(a, c) && WellWritten(b, c) && b.head == "" && Word(word, c) && NoSign(word) && Separates(gap)
    requires ValueText(value, c) && (c.credential(b.key) || NoSign(value)) && EndsInText(value) && IsEnding(ending)
    requires line == UpToValue(a) + (word + gap + UpToValue(b) + value) + ending
    ensures RedactedLine(line, c) ==
            UpToValue(a) + (Shown(a.key, word, c) + gap + UpToValue(b) + Shown(b.key, value, c)) + ending
  {
    var up, tail := UpToValue(a), word + gap + UpToValue(b) + value;
    TailEnds(word + gap, b, value, tail, c);
    var end := ContentEnds(a, tail, ending, line, c);
    Regrouped(up, tail, ending);
    assert line[|up|] == word[0] && word[0] != ' ' && word[0] != '\t' by { assert line[|up|] == tail[0]; assert !Opens(word[0], c); }
    var x := Places(a, tail + ending, line, end, c);
    var text := TailGiven(line, x.v, end, word, gap, b, value, ending, a.key, c);
    GivenOut(line, end, x, c, up, text, ending);
  }

  lemma TailEnds(front: string, b: Assigning, value: string, tail: string, c: Classes)
    requires WellWritten(b, c) && EndsInText(value) && tail == front + UpToValue(b) + value
    ensures tail != "" && EndsInText(tail)
  {
    UpEndsInText(b, c);
    var up := UpToValue(b);
    assert value == "" ==> tail[|tail| - 1] == up[|up| - 1];
    assert value != "" ==> tail[|tail| - 1] == value[|value| - 1];
  }

  lemma TailGiven(line: string, v: nat, end: nat, word: string, gap: string, b: Assigning, value: string, ending: string,
                  key: string, c: Classes) returns (text: string)
    requires Sane(c) && WellWritten(b, c) && b.head == "" && Word(word, c) && NoSign(word) && Separates(gap)
    requires ValueText(value, c) && (c.credential(b.key) || NoSign(value))
    requires v <= end <= |line| && end == v + |word + gap + UpToValue(b) + value|
    requires line[v..] == word + gap + UpToValue(b) + value + ending
    ensures text == Shown(key, word, c) + gap + UpToValue(b) + Shown(b.key, value, c)
    ensures text == FromValue(line, key, v, end, c)
  {
    var w, y := TailPlaces(line, v, end, word, gap, b, value, ending, c);
    var last := Shown(b.key, value, c);
    LastGiven(line, y, end, value, c);
    FirstGiven(line, v, w, y, end, last, key, c);
    text := Shown(key, word, c) + gap + UpToValue(b) + last;
    Regrouped(Shown(key, word, c), gap, UpToValue(b));
  }

  lemma TailPlaces(line: string, v: nat, end: nat, word: string, gap: string, b: Assigning, value: string, ending: string, c: Classes)
    returns (w: nat, y: Spot)
    requires Sane(c) && WellWritten(b, c) && b.head == "" && Word(word, c) && NoSign(word) && Separates(gap)
    requires ValueText(value, c)
    requires v <= end <= |line| && end == v + |word + gap + UpToValue(b) + value|
    requires line[v..] == word + gap + UpToValue(b) + value + ending
    ensures WordStands(line, v, w, y.at, c) && Stands(line, end, y, c) && Quiet(line, v, y.at) && y.key == b.key
    ensures y.v <= end && line[v..w] == word && line[w..y.v] == gap + UpToValue(b) && line[y.v..end] == value
  {
    var up := UpToValue(b);
    UpEndsInText(b, c);
    FiveGroups(word, gap, up, value, ending);
    var at: nat;
    w, at := Middle(line, v, word, gap, up + (value + ending));
    WordIsThere(line, v, w, at, word, gap, c);
    QuietWord(line, v, w, at, word, gap);
    y := PlacesBehind(b, value + ending, line, at, end, c);
    ValueHere(line, y.v, end, value, ending);
    TwoSlices(line, w, at, y.v);
  }

  lemma FiveGroups(word: string, gap: string, up: string, value: string, ending: string)
    ensures word + gap + up + value + ending == word + gap + (up + (value + ending))
  {
  }

  lemma ValueHere(line: string, v: nat, end: nat, value: string, ending: string)
    requires v <= |line| && line[v..] == value + ending && end == v + |value|
    ensures end <= |line| && line[v..end] == value
  {
    assert line[v..][..|value|] == value;
  }
}
