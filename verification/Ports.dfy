/** Compose port entries: the short and the long form, and how one is widened. */
module Ports {
  import opened Basics
  import opened ComposeValues
  import opened Mutations
  import opened MutationLaws

  datatype PortError =
    | InvalidPort | InvalidProtocol | PortRange | TaggedPort | HostNotNumeric | HostNetworking
    | TagUnknown | BadServices | BadService | BadPorts | BadCompose
    | InvalidContainerPort | AmbiguousBinding | PublishedCollision

  /** `ipaddress.ip_address`: None for a text that is no address, else whether it is a loopback address. */
  type Addresses = string -> Option<bool>

  const ANY_HOST := "0.0.0.0"

  datatype ShortParts = ShortParts(published: string, target: string, suffix: string)

  datatype Binding = Binding(service: string, index: nat, target: int, published: int, udp: bool,
                             host: Option<string>, loopback: bool, short: Option<ShortParts>)

  // ----- splitting at the colons outside an interpolation

  /** What a scan of `s` adds, from inside or outside `${...}`, to the part begun. None: the text is refused. */
  function Parts(s: string, inside: bool, begun: string): (r: Option<seq<string>>)
    ensures r.Some? ==> r.value != []
    decreases |s|
  {
    if s == [] then (if inside then None else Some([begun]))
    else if inside then
      if s[0] == '{' then None else Parts(s[1..], s[0] != '}', begun + [s[0]])
    else if s[0] == '$' && |s| > 1 && s[1] == '{' then Parts(s[2..], true, begun + s[..2])
    else if s[0] == '}' then None
    else if s[0] == ':' then
      match Parts(s[1..], false, [])
      case None => None
      case Some(rest) => Some([begun] + rest)
    else Parts(s[1..], false, begun + [s[0]])
  }

  function SplitParts(s: string): Option<seq<string>> {
    Parts(s, false, [])
  }

  /** `_split_short_parts`. */
  method SplitShortParts(body: string) returns (r: Option<seq<string>>)
    ensures r == SplitParts(body)
  {
    var parts: seq<string> := [];
    var start := 0;
    var inside := false;
    var index := 0;
    assert body[0..] == body && body[0..0] == [];
    PrefixedNothing(SplitParts(body));
    while index < |body|
      invariant 0 <= start <= index <= |body|
      invariant SplitParts(body) == Prefixed(parts, Parts(body[index..], inside, body[start..index]))
    {
      ghost var rest := body[index..];
      assert rest[1..] == body[index + 1..] && body[start..index] + [body[index]] == body[start..index + 1];
      var character := body[index];
      if inside {
        if character == '{' { return None; }
        if character == '}' { inside := false; }
        index := index + 1;
        continue;
      }
      if character == '$' && index + 1 < |body| && body[index + 1] == '{' {
        assert rest[2..] == body[index + 2..] && body[start..index] + rest[..2] == body[start..index + 2];
        inside := true;
        index := index + 2;
        continue;
      }
      if character == '}' { return None; }
      if character == ':' {
        PrefixedMore(parts, body[start..index], Parts(rest[1..], false, []));
        parts := parts + [body[start..index]];
        start := index + 1;
        assert body[start..index + 1] == [];
      }
      index := index + 1;
    }
    assert body[index..] == [];
    if inside { return None; }
    assert body[start..index] == body[start..];
    r := Some(parts + [body[start..]]);
  }

  function Prefixed(done: seq<string>, rest: Option<seq<string>>): Option<seq<string>> {
    if rest.None? then None else Some(done + rest.value)
  }

  lemma PrefixedNothing(r: Option<seq<string>>)
    ensures Prefixed([], r) == r
  {
    if r.Some? { assert [] + r.value == r.value; }
  }

  lemma PrefixedMore(done: seq<string>, part: string, rest: Option<seq<string>>)
    ensures Prefixed(done, if rest.None? then None else Some([part] + rest.value)) == Prefixed(done + [part], rest)
  {
    if rest.Some? { assert done + ([part] + rest.value) == (done + [part]) + rest.value; }
  }

  function Joined(parts: seq<string>): string
    requires parts != []
  {
    if |parts| == 1 then parts[0] else parts[0] + ":" + Joined(parts[1..])
  }

  lemma {:induction false} JoinGivesBack(s: string, inside: bool, begun: string)
    requires Parts(s, inside, begun).Some?
    ensures Joined(Parts(s, inside, begun).value) == begun + s
    decreases |s|
  {
    if s == [] {
    } else if inside {
      JoinGivesBack(s[1..], s[0] != '}', begun + [s[0]]);
      assert begun + [s[0]] + s[1..] == begun + s;
    } else if s[0] == '$' && |s| > 1 && s[1] == '{' {
      JoinGivesBack(s[2..], true, begun + s[..2]);
      assert begun + s[..2] + s[2..] == begun + s;
    } else if s[0] == ':' {
      JoinGivesBack(s[1..], false, []);
      var rest := Parts(s[1..], false, []).value;
      assert ([begun] + rest)[1..] == rest;
      assert begun + ":" + ([] + s[1..]) == begun + s;
    } else {
      JoinGivesBack(s[1..], false, begun + [s[0]]);
      assert begun + [s[0]] + s[1..] == begun + s;
    }
  }

  /** A text without a colon outside an interpolation. */
  predicate OnePart(s: string) {
    SplitParts(s) == Some([s])
  }

  /** Behind a text that is one part, a colon ends the part. */
  lemma {:induction false} PartThenColon(x: string, b: string, inside: bool, begun: string)
    requires Parts(x, inside, begun) == Some([begun + x])
    ensures Parts(x + ":" + b, inside, begun) == Prefixed([begun + x], SplitParts(b))
    decreases |x|
  {
    var s := x + ":" + b;
    if x == [] {
      assert s[1..] == b && begun + x == begun;
    } else if !inside && x[0] == '$' && |x| > 1 && x[1] == '{' {
      assert s[..2] == x[..2] && s[2..] == x[2..] + ":" + b && begun + x[..2] + x[2..] == begun + x;
      PartThenColon(x[2..], b, true, begun + x[..2]);
    } else {
      assert s[1..] == x[1..] + ":" + b && begun + [x[0]] + x[1..] == begun + x;
      if !inside && x[0] == ':' {
        assert false by { ColonSplits(x, begun); }
      } else {
        PartThenColon(x[1..], b, inside && x[0] != '}', begun + [x[0]]);
      }
    }
  }

  lemma ColonSplits(x: string, begun: string)
    requires x != [] && x[0] == ':' && Parts(x, false, begun).Some?
    ensures |Parts(x, false, begun).value| > 1
  {
  }

  lemma {:induction false} JoinedSplits(parts: seq<string>)
    requires parts != [] && forall i :: 0 <= i < |parts| ==> OnePart(parts[i])
    ensures SplitParts(Joined(parts)) == Some(parts)
  {
    assert [] + parts[0] == parts[0];
    if |parts| > 1 {
      JoinedSplits(parts[1..]);
      PartThenColon(parts[0], Joined(parts[1..]), false, []);
      assert [parts[0]] + parts[1..] == parts;
    } else {
      assert parts == [parts[0]];
    }
  }

  /** The part a scan has begun is completed by some text that is one part. */
  lemma {:induction false} FirstPart(s: string, inside: bool, begun: string) returns (x: string)
    requires Parts(s, inside, begun).Some?
    ensures Parts(s, inside, begun).value[0] == begun + x && Parts(x, inside, begun) == Some([begun + x])
    decreases |s|
  {
    if s == [] || (!inside && s[0] == ':') {
      x := [];
      assert begun + x == begun;
    } else if !inside && s[0] == '$' && |s| > 1 && s[1] == '{' {
      var rest := FirstPart(s[2..], true, begun + s[..2]);
      x := s[..2] + rest;
      assert x[2..] == rest && x[..2] == s[..2] && begun + s[..2] + rest == begun + x;
    } else {
      var rest := FirstPart(s[1..], inside && s[0] != '}', begun + [s[0]]);
      x := [s[0]] + rest;
      assert x[1..] == rest && begun + [s[0]] + rest == begun + x;
      if !inside && s[0] == '$' && rest != [] && rest[0] == '{' { DollarBrace(s, rest, begun); }
    }
  }

  /** The text after a lone dollar does not begin with a brace. */
  lemma {:induction false} DollarBrace(s: string, rest: string, begun: string)
    requires s != [] && s[0] == '$' && (|s| == 1 || s[1] != '{') && rest != []
    requires Parts(s[1..], false, begun + [s[0]]).Some?
    requires Parts(s[1..], false, begun + [s[0]]).value[0] == begun + [s[0]] + rest
    ensures rest[0] != '{'
  {
    StartsAlike(s[1..], false, begun + [s[0]]);
    var first := Parts(s[1..], false, begun + [s[0]]).value[0];
    assert first[|begun| + 1] == rest[0];
  }

  /** The first part is what was begun and a prefix of the text. */
  lemma {:induction false} StartsAlike(s: string, inside: bool, begun: string)
    requires Parts(s, inside, begun).Some?
    ensures Parts(s, inside, begun).value[0] <= begun + s
    decreases |s|
  {
    JoinGivesBack(s, inside, begun);
  }

  lemma {:induction false} PartsAreParts(s: string, i: nat)
    requires SplitParts(s).Some? && i < |SplitParts(s).value|
    ensures OnePart(SplitParts(s).value[i])
  {
    PartsBehind(s, false, [], i);
  }

  lemma {:induction false} PartsBehind(s: string, inside: bool, begun: string, i: nat)
    requires Parts(s, inside, begun).Some? && i < |Parts(s, inside, begun).value|
    requires i > 0 || (!inside && begun == [])
    ensures OnePart(Parts(s, inside, begun).value[i])
    decreases |s|
  {
    if i == 0 {
      var x := FirstPart(s, false, []);
      assert [] + x == x;
    } else if inside {
      PartsBehind(s[1..], s[0] != '}', begun + [s[0]], i);
    } else if s[0] == '$' && |s| > 1 && s[1] == '{' {
      PartsBehind(s[2..], true, begun + s[..2], i);
    } else if s[0] == ':' {
      PartsBehind(s[1..], false, [], i - 1);
    } else {
      PartsBehind(s[1..], false, begun + [s[0]], i);
    }
  }

  /** Splitting and joining undo each other. */
  lemma SplitJoin(s: string)
    requires SplitParts(s).Some?
    ensures Joined(SplitParts(s).value) == s
    ensures forall i :: 0 <= i < |SplitParts(s).value| ==> OnePart(SplitParts(s).value[i])
  {
    JoinGivesBack(s, false, []);
    assert [] + s == s;
    forall i | 0 <= i < |SplitParts(s).value| ensures OnePart(SplitParts(s).value[i]) { PartsAreParts(s, i); }
  }

  // ----- port numbers

  predicate IsDigit(c: char) {
    '0' <= c <= '9'
  }

  predicate AllDigits(s: string) {
    s != [] && forall i :: 0 <= i < |s| ==> IsDigit(s[i])
  }

  function Decimal(s: string): int {
    if s == [] then 0 else 10 * Decimal(s[..|s| - 1]) + (s[|s| - 1] as int - '0' as int)
  }

  /** Python refuses to read longer integers. */
  const MAX_INT_DIGITS: nat := 4300

  function NumberOf(digits: string): Result<int, PortError> {
    if |digits| > MAX_INT_DIGITS || !(1 <= Decimal(digits) <= 65535) then Err(InvalidPort) else Ok(Decimal(digits))
  }

  predicate IsNameStart(c: char) {
    'A' <= c <= 'Z' || 'a' <= c <= 'z' || c == '_'
  }

  predicate IsName(s: string) {
    s != [] && IsNameStart(s[0]) && forall i :: 0 <= i < |s| ==> IsNameStart(s[i]) || IsDigit(s[i])
  }

  /** Where a character first stands. */
  function CharAt(s: string, c: char): (r: nat)
    ensures r <= |s| && c !in s[..r] && (r < |s| ==> s[r] == c)
  {
    if s == [] || s[0] == c then 0 else
      var r := 1 + CharAt(s[1..], c);
      assert s[..r] == [s[0]] + s[1..][..r - 1];
      r
  }

  /** The default of `${NAME:-123}` or `${NAME-123}`. */
  function DefaultDigits(s: string): Option<string> {
    if |s| < 3 || s[..2] != "${" || s[|s| - 1] != '}' then None else
      var inner := s[2..|s| - 1];
      var dash := CharAt(inner, '-');
      if dash == |inner| then None else
        var name := if dash > 0 && inner[dash - 1] == ':' then inner[..dash - 1] else inner[..dash];
        if IsName(name) && AllDigits(inner[dash + 1..]) then Some(inner[dash + 1..]) else None
  }

  /** `_parse_port_number` on a text. */
  function PortOfText(s: string): Result<int, PortError> {
    if DefaultDigits(s).Some? then NumberOf(DefaultDigits(s).value)
    else if '{' in s || '}' in s then Err(InvalidPort)
    else if '-' in s then Err(PortRange)
    else if AllDigits(s) then NumberOf(s)
    else Err(InvalidPort)
  }

  function PortOf(v: Value): Result<int, PortError> {
    if TagOf(v).Some? then Err(TaggedPort) else
    match v
    case Atom(Int(n)) => if 1 <= n <= 65535 then Ok(n) else Err(InvalidPort)
    case Atom(Str(s)) => PortOfText(s)
    case _ => Err(InvalidPort)
  }

  function HostOf(text: Option<string>, addresses: Addresses): Result<(Option<string>, bool), PortError> {
    if text.None? then Ok((None, false))
    else if text.value == "" || addresses(text.value).None? then Err(HostNotNumeric)
    else Ok((text, addresses(text.value).value))
  }

  function HostOfValue(v: Value, addresses: Addresses): Result<(Option<string>, bool), PortError> {
    if TagOf(v).Some? then Err(TaggedPort) else
    match v
    case Atom(Null) => HostOf(None, addresses)
    case Atom(Str(s)) => HostOf(Some(s), addresses)
    case _ => Err(HostNotNumeric)
  }

  // ----- the short form

  datatype Split = Split(body: string, udp: bool, suffix: string)

  function SplitProtocol(entry: string): Result<Split, PortError> {
    var i := CharAt(entry, '/');
    if i == |entry| then Ok(Split(entry, false, ""))
    else if entry[i + 1..] == "tcp" then Ok(Split(entry[..i], false, "/tcp"))
    else if entry[i + 1..] == "udp" then Ok(Split(entry[..i], true, "/udp"))
    else Err(InvalidProtocol)
  }

  datatype Pieces = Pieces(host: Option<string>, published: string, target: string)

  /** The host, published and target texts of a short entry's body. */
  function PiecesOf(body: string): Result<Pieces, PortError> {
    if body != [] && body[0] == '[' then
      var close := CharAt(body, ']');
      if close + 1 >= |body| || body[close + 1] != ':' then Err(InvalidPort) else
        match SplitParts(body[close + 2..])
        case None => Err(InvalidPort)
        case Some(parts) =>
          if |parts| == 2 then Ok(Pieces(Some(body[1..close]), parts[0], parts[1])) else Err(InvalidPort)
    else
      match SplitParts(body)
      case None => Err(InvalidPort)
      case Some(parts) =>
        if |parts| == 2 then Ok(Pieces(None, parts[0], parts[1]))
        else if |parts| == 3 then Ok(Pieces(Some(parts[0]), parts[1], parts[2]))
        else Err(InvalidPort)
  }

  function BindShort(service: string, index: nat, s: Split, p: Pieces, addresses: Addresses): Result<Binding, PortError> {
    match HostOf(p.host, addresses)
    case Err(e) => Err(e)
    case Ok((host, loopback)) =>
      match PortOfText(p.published)
      case Err(e) => Err(e)
      case Ok(published) =>
        match PortOfText(p.target)
        case Err(e) => Err(e)
        case Ok(target) =>
          Ok(Binding(service, index, target, published, s.udp, host, loopback,
                     Some(ShortParts(p.published, p.target, s.suffix))))
  }

  /** `_parse_short_entry`. */
  function ParseShort(service: string, index: nat, entry: string, addresses: Addresses): Result<Binding, PortError> {
    match SplitProtocol(entry)
    case Err(e) => Err(e)
    case Ok(s) =>
      match PiecesOf(s.body)
      case Err(e) => Err(e)
      case Ok(p) => BindShort(service, index, s, p, addresses)
  }

  // ----- the widened short entry

  function WidenedText(p: ShortParts): string {
    ANY_HOST + ":" + p.published + ":" + p.target + p.suffix
  }

  /** Pieces of a body that has no slash. */
  ghost predicate Clean(p: Pieces) {
    OnePart(p.published) && OnePart(p.target) && '/' !in p.published && '/' !in p.target
  }

  lemma {:induction false} CharsOfParts(parts: seq<string>, i: nat, c: char)
    requires i < |parts| && c in parts[i]
    ensures c in Joined(parts)
  {
    if |parts| > 1 {
      if i > 0 { CharsOfParts(parts[1..], i - 1, c); }
      assert Joined(parts) == parts[0] + ":" + Joined(parts[1..]);
    }
  }

  lemma SplitClean(s: string, i: nat)
    requires '/' !in s && SplitParts(s).Some? && i < |SplitParts(s).value|
    ensures OnePart(SplitParts(s).value[i]) && '/' !in SplitParts(s).value[i]
  {
    SplitJoin(s);
    if '/' in SplitParts(s).value[i] { CharsOfParts(SplitParts(s).value, i, '/'); }
  }

  lemma PiecesClean(body: string)
    requires '/' !in body && PiecesOf(body).Ok?
    ensures Clean(PiecesOf(body).value)
  {
    if body != [] && body[0] == '[' {
      var rest := body[CharAt(body, ']') + 2..];
      SplitClean(rest, 0);
      SplitClean(rest, 1);
    } else {
      var n := |SplitParts(body).value|;
      SplitClean(body, n - 2);
      SplitClean(body, n - 1);
    }
  }

  lemma {:induction false} PlainIsOnePart(s: string, begun: string)
    requires forall i :: 0 <= i < |s| ==> s[i] != '$' && s[i] != ':' && s[i] != '}'
    ensures Parts(s, false, begun) == Some([begun + s])
  {
    if s == [] {
      assert begun + s == begun;
    } else {
      PlainIsOnePart(s[1..], begun + [s[0]]);
      assert begun + [s[0]] + s[1..] == begun + s;
    }
  }

  lemma WidenedPieces(p: Pieces)
    requires Clean(p)
    ensures var body := ANY_HOST + ":" + p.published + ":" + p.target;
            '/' !in body && PiecesOf(body) == Ok(Pieces(Some(ANY_HOST), p.published, p.target))
  {
    var parts := [ANY_HOST, p.published, p.target];
    PlainIsOnePart(ANY_HOST, []);
    assert [] + ANY_HOST == ANY_HOST;
    JoinedSplits(parts);
    var rest := [p.published, p.target];
    assert parts[1..] == rest && rest[1..] == [p.target];
    var body := ANY_HOST + ":" + p.published + ":" + p.target;
    assert Joined(rest) == p.published + ":" + Joined([p.target]);
    assert Joined(parts) == ANY_HOST + ":" + Joined(rest);
    assert body == ANY_HOST + ":" + (p.published + ":" + p.target);
    assert body[0] == ANY_HOST[0];
  }

  /** A suffix and the protocol it stands for. */
  predicate Suffix(s: Split) {
    (s.suffix == "" && !s.udp) || (s.suffix == "/tcp" && !s.udp) || (s.suffix == "/udp" && s.udp)
  }

  lemma CharAtIs(s: string, c: char, i: nat)
    requires i <= |s| && c !in s[..i] && (i < |s| ==> s[i] == c)
    ensures CharAt(s, c) == i
  {
    var r := CharAt(s, c);
    NotBefore(s, c, i);
    NotBefore(s, c, r);
  }

  lemma NotBefore(s: string, c: char, i: nat)
    requires i <= |s| && c !in s[..i]
    ensures forall k :: 0 <= k < i ==> s[k] != c
  {
    forall k | 0 <= k < i ensures s[k] != c { assert s[..i][k] == s[k]; }
  }

  lemma SuffixSplits(body: string, udp: bool, suffix: string)
    requires '/' !in body && Suffix(Split(body, udp, suffix))
    ensures SplitProtocol(body + suffix) == Ok(Split(body, udp, suffix))
  {
    var entry := body + suffix;
    assert entry[..|body|] == body;
    if suffix == "" { assert entry == body; } else { assert entry[|body|] == suffix[0]; }
    CharAtIs(entry, '/', |body|);
    if suffix != "" { assert entry[|body| + 1..] == suffix[1..]; }
  }

  lemma SplitIs(entry: string)
    requires SplitProtocol(entry).Ok?
    ensures Suffix(SplitProtocol(entry).value) && '/' !in SplitProtocol(entry).value.body
  {
    var i := CharAt(entry, '/');
    if i == |entry| { assert entry[..i] == entry; }
  }

  /** A widened short entry reads as before, on every address instead of the old one. */
  lemma WidenedShortReparses(service: string, index: nat, entry: string, addresses: Addresses)
    requires ParseShort(service, index, entry, addresses).Ok? && addresses(ANY_HOST) == Some(false)
    ensures var b := ParseShort(service, index, entry, addresses).value;
            && b.short.Some?
            && ParseShort(service, index, WidenedText(b.short.value), addresses) ==
                 Ok(b.(host := Some(ANY_HOST), loopback := false))
  {
    var s := SplitProtocol(entry).value;
    SplitIs(entry);
    PiecesClean(s.body);
    var p := PiecesOf(s.body).value;
    WidenedPieces(p);
    var body := ANY_HOST + ":" + p.published + ":" + p.target;
    SuffixSplits(body, s.udp, s.suffix);
    assert WidenedText(ShortParts(p.published, p.target, s.suffix)) == body + s.suffix;
  }

  // ----- the long form

  function ProtocolOf(entries: seq<Entry>): Result<bool, PortError> {
    if !Has(entries, "protocol") then Ok(false)
    else if TagOf(Get(entries, "protocol")).Some? then Err(TaggedPort)
    else if Get(entries, "protocol") == Atom(Str("tcp")) then Ok(false)
    else if Get(entries, "protocol") == Atom(Str("udp")) then Ok(true)
    else Err(InvalidProtocol)
  }

  function HostField(entries: seq<Entry>, addresses: Addresses): Result<(Option<string>, bool), PortError> {
    if Has(entries, "host_ip") then HostOfValue(Get(entries, "host_ip"), addresses) else HostOf(None, addresses)
  }

  /** `_parse_long_entry`. */
  function ParseLong(service: string, index: nat, entries: seq<Entry>, addresses: Addresses): Result<Binding, PortError> {
    if !Has(entries, "target") || !Has(entries, "published") then Err(InvalidPort) else
    match PortOf(Get(entries, "target"))
    case Err(e) => Err(e)
    case Ok(target) =>
      match PortOf(Get(entries, "published"))
      case Err(e) => Err(e)
      case Ok(published) =>
        match ProtocolOf(entries)
        case Err(e) => Err(e)
        case Ok(udp) =>
          match HostField(entries, addresses)
          case Err(e) => Err(e)
          case Ok((host, loopback)) => Ok(Binding(service, index, target, published, udp, host, loopback, None))
  }

  function ParseEntry(service: string, index: nat, entry: Value, addresses: Addresses): Result<Binding, PortError> {
    if TagOf(entry).Some? then Err(TaggedPort) else
    match entry
    case Atom(Str(s)) => ParseShort(service, index, s, addresses)
    case Mapping(_, entries) => ParseLong(service, index, entries, addresses)
    case _ => Err(InvalidPort)
  }

  /** The entry the overlay puts in place of a binding's own. */
  function WidenEntry(entry: Value, b: Binding): Value
    requires b.short.None? ==> entry.Mapping?
  {
    if b.short.Some? then Atom(Str(WidenedText(b.short.value)))
    else entry.(entries := SetEntry(entry.entries, "host_ip", Atom(Str(ANY_HOST))))
  }

  function Widened(b: Binding): Binding {
    b.(host := Some(ANY_HOST), loopback := false)
  }

  lemma WidenedHost(entries: seq<Entry>, addresses: Addresses)
    requires Has(entries, "host_ip") && Get(entries, "host_ip") == Atom(Str(ANY_HOST)) && addresses(ANY_HOST) == Some(false)
    ensures HostField(entries, addresses) == Ok((Some(ANY_HOST), false))
  {
  }

  ghost predicate SameField(a: seq<Entry>, b: seq<Entry>, key: string) {
    Has(a, key) == Has(b, key) && (Has(a, key) ==> Get(a, key) == Get(b, key))
  }

  /** Entries that differ in nothing but a readable host bind the same ports. */
  lemma OtherHost(service: string, index: nat, a: seq<Entry>, b: seq<Entry>, addresses: Addresses)
    requires SameField(a, b, "target") && SameField(a, b, "published") && SameField(a, b, "protocol")
    requires ParseLong(service, index, a, addresses).Ok? && HostField(b, addresses) == Ok((Some(ANY_HOST), false))
    ensures ParseLong(service, index, b, addresses) == Ok(Widened(ParseLong(service, index, a, addresses).value))
  {
  }

  lemma WidenedLongReparses(service: string, index: nat, entries: seq<Entry>, addresses: Addresses)
    requires ValidEntries(entries) && ParseLong(service, index, entries, addresses).Ok? && addresses(ANY_HOST) == Some(false)
    ensures ParseLong(service, index, SetEntry(entries, "host_ip", Atom(Str(ANY_HOST))), addresses) ==
            Ok(Widened(ParseLong(service, index, entries, addresses).value))
  {
    var after := SetEntry(entries, "host_ip", Atom(Str(ANY_HOST)));
    SetEntryAgrees(entries, "host_ip", Atom(Str(ANY_HOST)));
    WidenedHost(after, addresses);
    assert "target" != "host_ip" && "published" != "host_ip" && "protocol" != "host_ip";
    assert SameField(entries, after, "target") && SameField(entries, after, "published") && SameField(entries, after, "protocol");
    OtherHost(service, index, entries, after, addresses);
  }

  /** Whatever its form, a widened entry binds the same ports of the same service, on every address. */
  lemma WidenedEntryReparses(service: string, index: nat, entry: Value, addresses: Addresses)
    requires Valid(entry) && ParseEntry(service, index, entry, addresses).Ok? && addresses(ANY_HOST) == Some(false)
    ensures var b := ParseEntry(service, index, entry, addresses).value;
            && (b.short.None? ==> entry.Mapping?)
            && ParseEntry(service, index, WidenEntry(entry, b), addresses) == Ok(Widened(b))
  {
    match entry {
      case Atom(Str(s)) => WidenedShortReparses(service, index, s, addresses);
      case Mapping(_, entries) => WidenedLongReparses(service, index, entries, addresses);
      case _ =>
    }
  }
}
