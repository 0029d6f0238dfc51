/** Short port entries as somebody writes them, and what they are read as. */
module PortPrinting {
  import opened Basics
  import opened ComposeValues
  import opened Ports

  // ----- numbers as they are written

  function DigitOf(d: nat): char
    requires d < 10
  {
    if d == 0 then '0' else if d == 1 then '1' else if d == 2 then '2' else if d == 3 then '3' else if d == 4 then '4'
    else if d == 5 then '5' else if d == 6 then '6' else if d == 7 then '7' else if d == 8 then '8' else '9'
  }

  /** The decimal digits of a number. */
  function Shown(n: nat): string {
    if n < 10 then [DigitOf(n)] else Shown(n / 10) + [DigitOf(n % 10)]
  }

  function Zeros(k: nat): string {
    seq(k, _ => '0')
  }

  lemma DigitReads(d: nat)
    requires d < 10
    ensures IsDigit(DigitOf(d)) && DigitOf(d) as int - '0' as int == d
  {
  }

  lemma DigitIsShown(c: char)
    requires IsDigit(c)
    ensures 0 <= c as int - '0' as int < 10 && DigitOf(c as int - '0' as int) == c
  {
    var d := c as int - '0' as int;
    assert c == ('0' as int + d) as char;
    if d == 0 {} else if d == 1 {} else if d == 2 {} else if d == 3 {} else if d == 4 {}
    else if d == 5 {} else if d == 6 {} else if d == 7 {} else if d == 8 {} else { assert d == 9; }
  }

  lemma {:induction false} ShownReads(k: nat, n: nat)
    ensures Decimal(Zeros(k) + Shown(n)) == n && AllDigits(Zeros(k) + Shown(n))
    decreases n
  {
    var s := Zeros(k) + Shown(n);
    DigitReads(n % 10);
    if n < 10 {
      assert s[..|s| - 1] == Zeros(k);
      ZerosRead(k);
    } else {
      ShownReads(k, n / 10);
      assert s == (Zeros(k) + Shown(n / 10)) + [DigitOf(n % 10)];
      assert s[..|s| - 1] == Zeros(k) + Shown(n / 10);
    }
  }

  lemma {:induction false} ZerosRead(k: nat)
    ensures Decimal(Zeros(k)) == 0
  {
    if k > 0 {
      ZerosRead(k - 1);
      assert Zeros(k)[..k - 1] == Zeros(k - 1);
    }
  }

  /** Digits are leading zeros and the digits of their number. */
  lemma {:induction false} DigitsAreShown(s: string) returns (k: nat)
    requires AllDigits(s)
    ensures Decimal(s) >= 0 && s == Zeros(k) + Shown(Decimal(s))
    decreases |s|
  {
    var n := |s| - 1;
    var c := s[n];
    DigitIsShown(c);
    if n == 0 {
      assert s[..0] == [] && Decimal(s[..0]) == 0;
      assert Decimal(s) == c as int - '0' as int;
      k := 0;
      assert s == [c] && Zeros(0) + Shown(Decimal(s)) == [c];
    } else {
      var init := s[..n];
      k := DigitsAreShown(init);
      if Decimal(init) == 0 {
        k := k + 1;
        assert s == init + [c] && init == Zeros(k - 1) + ['0'] && Zeros(k) == Zeros(k - 1) + ['0'];
      } else {
        assert Decimal(s) / 10 == Decimal(init) && Decimal(s) % 10 == c as int - '0' as int;
        assert s == Zeros(k) + Shown(Decimal(init)) + [c];
      }
    }
  }

  // ----- a port as it is written

  /** Digits, or the default of a variable: `${NAME:-80}`, `${NAME-80}`. */
  datatype PortText = Plain(zeros: nat, n: nat) | Default(name: string, colon: bool, zeros: nat, n: nat)

  function DigitsOf(t: PortText): string {
    Zeros(t.zeros) + Shown(t.n)
  }

  function Written(t: PortText): string {
    match t
    case Plain(_, _) => DigitsOf(t)
    case Default(name, colon, _, _) => Around(name + (if colon then ":-" else "-") + DigitsOf(t))
  }

  predicate NameStart(c: char) {
    'A' <= c <= 'Z' || 'a' <= c <= 'z' || c == '_'
  }

  /** Letters, digits and underscores, no digit first. */
  predicate WellNamed(t: PortText) {
    t.Default? ==> t.name != "" && NameStart(t.name[0]) &&
                   forall i :: 0 <= i < |t.name| ==> NameStart(t.name[i]) || '0' <= t.name[i] <= '9'
  }

  lemma NameHas(name: string, c: char)
    requires IsName(name) && c in {'-', ':', '{', '}', '$', '/'}
    ensures c !in name
  {
  }

  lemma DigitsHave(s: string, c: char)
    requires AllDigits(s) && c in {'-', ':', '{', '}', '$', '/'}
    ensures c !in s
  {
  }

  function Around(inner: string): string {
    "${" + inner + "}"
  }

  lemma AroundIs(s: string, inner: string)
    requires s == Around(inner)
    ensures |s| >= 3 && s[..2] == "${" && s[|s| - 1] == '}' && s[2..|s| - 1] == inner
  {
  }

  lemma DashAt(name: string, sep: string, digits: string, inner: string, dash: nat)
    requires IsName(name) && (sep == ":-" || sep == "-") && inner == name + sep + digits && dash == |name| + |sep| - 1
    ensures dash < |inner| && CharAt(inner, '-') == dash && inner[dash + 1..] == digits
    ensures dash > 0 && (inner[dash - 1] == ':' <==> sep == ":-") && inner[..|name|] == name
  {
    NameHas(name, '-');
    NameHas(name, ':');
    forall k | 0 <= k < dash ensures inner[k] != '-' { if k < |name| { assert inner[k] == name[k]; } }
    assert inner[dash] == sep[|sep| - 1] == '-';
    CharAtIs(inner, '-', dash);
    if sep == "-" { assert inner[dash - 1] == name[|name| - 1]; } else { assert inner[dash - 1] == sep[0]; }
  }

  lemma DefaultRead(name: string, sep: string, digits: string, s: string)
    requires IsName(name) && AllDigits(digits) && (sep == ":-" || sep == "-") && s == Around(name + sep + digits)
    ensures DefaultDigits(s) == Some(digits)
  {
    var inner := name + sep + digits;
    AroundIs(s, inner);
    DashAt(name, sep, digits, inner, |name| + |sep| - 1);
  }

  lemma AroundBack(s: string)
    requires |s| >= 3 && s[..2] == "${" && s[|s| - 1] == '}'
    ensures s == Around(s[2..|s| - 1])
  {
    assert s == s[..2] + s[2..|s| - 1] + [s[|s| - 1]];
  }

  /** The other way round: what has default digits is written like that. */
  lemma DefaultWritten(s: string) returns (name: string, colon: bool)
    requires DefaultDigits(s).Some?
    ensures IsName(name) && AllDigits(DefaultDigits(s).value)
    ensures s == Around(name + (if colon then ":-" else "-") + DefaultDigits(s).value)
  {
    AroundBack(s);
    name, colon := InnerWritten(s[2..|s| - 1]);
  }

  lemma InnerWritten(inner: string) returns (name: string, colon: bool)
    requires CharAt(inner, '-') < |inner|
    ensures var dash := CharAt(inner, '-');
            && name == (if dash > 0 && inner[dash - 1] == ':' then inner[..dash - 1] else inner[..dash])
            && inner == name + (if colon then ":-" else "-") + inner[dash + 1..]
  {
    var dash := CharAt(inner, '-');
    colon := dash > 0 && inner[dash - 1] == ':';
    name := if colon then inner[..dash - 1] else inner[..dash];
  }

  predicate Fits(t: PortText) {
    WellNamed(t) && t.zeros + |Shown(t.n)| <= 4300
  }

  /** A written port is read as its number, from 1 to 65535, and refused otherwise. */
  lemma PortReads(t: PortText)
    requires Fits(t)
    ensures PortOfText(Written(t)) == if 1 <= t.n <= 65535 then Ok(t.n) else Err(InvalidPort)
  {
    var digits := DigitsOf(t);
    ShownReads(t.zeros, t.n);
    match t
    case Default(name, colon, _, _) => DefaultRead(name, if colon then ":-" else "-", digits, Written(t));
    case Plain(_, _) =>
      DigitsHave(digits, '-');
      DigitsHave(digits, '{');
      DigitsHave(digits, '}');
      NoDefault(digits);
  }

  lemma NoDefault(s: string)
    requires '}' !in s
    ensures DefaultDigits(s).None?
  {
  }

  lemma DefaultFits(name: string, colon: bool, k: nat, n: nat, s: string, digits: string) returns (t: PortText)
    requires IsName(name) && digits == Zeros(k) + Shown(n) && |digits| <= 4300
    requires s == Around(name + (if colon then ":-" else "-") + digits)
    ensures Fits(t) && s == Written(t) && t.n == n
  {
    t := Default(name, colon, k, n);
  }

  lemma NumberIsShown(digits: string) returns (k: nat, n: nat)
    requires AllDigits(digits) && NumberOf(digits).Ok?
    ensures digits == Zeros(k) + Shown(n) && |digits| <= 4300 && n == Decimal(digits)
  {
    k := DigitsAreShown(digits);
    n := Decimal(digits);
  }

  lemma DefaultIsWritten(s: string, digits: string) returns (t: PortText)
    requires DefaultDigits(s) == Some(digits) && NumberOf(digits).Ok?
    ensures Fits(t) && s == Written(t) && Decimal(digits) == t.n
  {
    var name, colon := DefaultWritten(s);
    var k, n := NumberIsShown(digits);
    t := DefaultFits(name, colon, k, n, s, digits);
  }

  lemma PlainIsWritten(s: string) returns (t: PortText)
    requires AllDigits(s) && NumberOf(s).Ok?
    ensures Fits(t) && s == Written(t) && Decimal(s) == t.n
  {
    var k := DigitsAreShown(s);
    t := Plain(k, Decimal(s));
  }

  /** And what is read as a number is a port written so. */
  lemma PortIsWritten(s: string) returns (t: PortText)
    requires PortOfText(s).Ok?
    ensures Fits(t) && s == Written(t) && PortOfText(s).value == t.n && 1 <= t.n <= 65535
  {
    if DefaultDigits(s).Some? { t := DefaultIsWritten(s, DefaultDigits(s).value); } else { t := PlainIsWritten(s); }
  }

  // ----- a written port among the colons of an entry

  lemma {:induction false} InsideRuns(inner: string, begun: string)
    requires '{' !in inner && '}' !in inner
    ensures Parts(inner + "}", true, begun) == Some([begun + inner + "}"])
    decreases |inner|
  {
    var s := inner + "}";
    if inner == [] {
      assert s[1..] == [] && begun + inner + "}" == begun + [s[0]];
    } else {
      InsideRuns(inner[1..], begun + [inner[0]]);
      assert s[1..] == inner[1..] + "}" && begun + [inner[0]] + inner[1..] + "}" == begun + inner + "}";
    }
  }

  lemma AroundIsOnePart(inner: string)
    requires '{' !in inner && '}' !in inner
    ensures OnePart(Around(inner))
  {
    var s := Around(inner);
    InsideRuns(inner, [] + s[..2]);
    assert s[2..] == inner + "}" && [] + s[..2] + inner + "}" == s;
  }

  lemma InnerHas(name: string, sep: string, digits: string, c: char)
    requires IsName(name) && AllDigits(digits) && (sep == ":-" || sep == "-") && c in {'{', '}', '/'}
    ensures c !in name + sep + digits
  {
    NameHas(name, c);
    DigitsHave(digits, c);
  }

  lemma WrittenIsClean(t: PortText)
    requires WellNamed(t)
    ensures OnePart(Written(t)) && '/' !in Written(t) && Written(t) != [] && Written(t)[0] != '['
  {
    var digits := DigitsOf(t);
    ShownReads(t.zeros, t.n);
    match t
    case Plain(_, _) =>
      PlainIsOnePart(digits, []);
      assert [] + digits == digits;
      DigitsHave(digits, '/');
    case Default(name, colon, _, _) =>
      var sep := if colon then ":-" else "-";
      InnerHas(name, sep, digits, '{');
      InnerHas(name, sep, digits, '}');
      InnerHas(name, sep, digits, '/');
      AroundIsOnePart(name + sep + digits);
      AroundIs(Written(t), name + sep + digits);
      AroundHas(name + sep + digits);
  }

  lemma AroundHas(inner: string)
    requires '/' !in inner
    ensures '/' !in Around(inner) && Around(inner)[0] == '$'
  {
  }

  // ----- the whole entry

  /** The host part of an entry: none, as it is, or in brackets. */
  datatype HostText = NoHost | Bare(host: string) | Bracketed(host: string)

  function HostWritten(h: HostText): string {
    match h
    case NoHost => ""
    case Bare(host) => host + ":"
    case Bracketed(host) => "[" + host + "]:"
  }

  function HostIn(h: HostText): Option<string> {
    if h.NoHost? then None else Some(h.host)
  }

  /** The texts that can stand in those places. */
  predicate WellFormed(h: HostText) {
    match h
    case NoHost => true
    case Bare(host) => host != "" && host[0] != '[' && '/' !in host && OnePart(host)
    case Bracketed(host) => ']' !in host && '/' !in host
  }

  function Body(h: HostText, published: string, target: string): string {
    HostWritten(h) + (published + ":" + target)
  }

  lemma TwoParts(a: string, b: string)
    requires OnePart(a) && OnePart(b)
    ensures SplitParts(a + ":" + b) == Some([a, b])
  {
    var parts := [a, b];
    assert parts[1..] == [b];
    assert Joined(parts[1..]) == b;
    JoinedSplits(parts);
  }

  lemma ThreeParts(a: string, b: string, c: string)
    requires OnePart(a) && OnePart(b) && OnePart(c)
    ensures SplitParts(a + ":" + (b + ":" + c)) == Some([a, b, c])
  {
    var parts := [a, b, c];
    assert parts[1..] == [b, c] && [b, c][1..] == [c];
    assert Joined([c]) == c && Joined([b, c]) == b + ":" + c;
    JoinedSplits(parts);
  }

  lemma BracketedPieces(host: string, rest: string)
    requires ']' !in host
    ensures var body := "[" + host + "]:" + rest;
            var close := CharAt(body, ']');
            && body[0] == '[' && close == |host| + 1 && close + 1 < |body| && body[close + 1] == ':'
            && body[1..close] == host && body[close + 2..] == rest
  {
    var body := "[" + host + "]:" + rest;
    forall k | 0 <= k < |host| + 1 ensures body[k] != ']' { if k > 0 { assert body[k] == host[k - 1]; } }
    assert body[|host| + 1] == ']' && body[|host| + 2] == ':';
    CharAtIs(body, ']', |host| + 1);
  }

  /** Which part of a body is the host, which is published and which is the target. */
  lemma BodyReads(h: HostText, published: string, target: string)
    requires WellFormed(h) && OnePart(published) && OnePart(target) && published != [] && published[0] != '['
    ensures PiecesOf(Body(h, published, target)) == Ok(Pieces(HostIn(h), published, target))
  {
    var rest := published + ":" + target;
    var body := Body(h, published, target);
    match h
    case NoHost =>
      assert body == rest;
      TwoParts(published, target);
    case Bare(host) =>
      assert body == host + ":" + rest && body[0] == host[0];
      ThreeParts(host, published, target);
    case Bracketed(host) =>
      assert body == "[" + host + "]:" + rest;
      BracketedPieces(host, rest);
      TwoParts(published, target);
  }

  lemma BodyHasNoSlash(h: HostText, published: string, target: string)
    requires WellFormed(h) && '/' !in published && '/' !in target
    ensures '/' !in Body(h, published, target)
  {
  }

  const SUFFIXES: set<string> := {"", "/tcp", "/udp"}

  /** A short entry as it is written: the host's form, the published port, the target, the protocol. */
  function ShortEntry(h: HostText, published: PortText, target: PortText, suffix: string): string {
    Body(h, Written(published), Written(target)) + suffix
  }

  /** Such as addresses: any text without a colon, a slash or the signs of an interpolation can stand bare. */
  lemma PlainHost(host: string)
    requires host != "" && host[0] != '['
    requires forall i :: 0 <= i < |host| ==> host[i] !in {':', '/', '$', '{', '}'}
    ensures WellFormed(Bare(host))
  {
    PlainIsOnePart(host, []);
    assert [] + host == host;
  }

  lemma ParsedPieces(service: string, index: nat, entry: string, s: Split, p: Pieces, addresses: Addresses)
    requires SplitProtocol(entry) == Ok(s) && PiecesOf(s.body) == Ok(p)
    ensures ParseShort(service, index, entry, addresses) == BindShort(service, index, s, p, addresses)
  {
  }

  /** The binding a written entry says, or why there is none. */
  function Meant(service: string, index: nat, h: HostText, published: PortText, target: PortText, suffix: string,
                 addresses: Addresses): Result<Binding, PortError> {
    if !h.NoHost? && (h.host == "" || addresses(h.host).None?) then Err(HostNotNumeric)
    else if !(1 <= published.n <= 65535) || !(1 <= target.n <= 65535) then Err(InvalidPort)
    else Ok(Binding(service, index, target.n, published.n, suffix == "/udp", HostIn(h),
                    !h.NoHost? && addresses(h.host) == Some(true),
                    Some(ShortParts(Written(published), Written(target), suffix))))
  }

  lemma BoundIs(service: string, index: nat, h: HostText, published: PortText, target: PortText, s: Split, p: Pieces,
                addresses: Addresses)
    requires p == Pieces(HostIn(h), Written(published), Written(target)) && s.udp == (s.suffix == "/udp")
    requires PortOfText(p.published) == if 1 <= published.n <= 65535 then Ok(published.n) else Err(InvalidPort)
    requires PortOfText(p.target) == if 1 <= target.n <= 65535 then Ok(target.n) else Err(InvalidPort)
    ensures BindShort(service, index, s, p, addresses) == Meant(service, index, h, published, target, s.suffix, addresses)
  {
  }

  lemma EntrySplits(h: HostText, p: string, t: string, suffix: string, entry: string, s: Split)
    requires WellFormed(h) && '/' !in p && '/' !in t && suffix in SUFFIXES
    requires entry == Body(h, p, t) + suffix && s == Split(Body(h, p, t), suffix == "/udp", suffix)
    ensures SplitProtocol(entry) == Ok(s)
  {
    BodyHasNoSlash(h, p, t);
    SuffixSplits(Body(h, p, t), suffix == "/udp", suffix);
  }

  /** Every written entry is read as the binding it says: the port before the last colon is published, the one behind it is
      the target, on that host, over that protocol. A host that is no address is refused, and so is a port out of range. */
  lemma WrittenEntryReads(service: string, index: nat, h: HostText, published: PortText, target: PortText, suffix: string,
                          addresses: Addresses)
    requires WellFormed(h) && Fits(published) && Fits(target) && suffix in SUFFIXES
    ensures ParseShort(service, index, ShortEntry(h, published, target, suffix), addresses) ==
            Meant(service, index, h, published, target, suffix, addresses)
  {
    var p, t := Written(published), Written(target);
    var entry := ShortEntry(h, published, target, suffix);
    var s, pieces := Split(Body(h, p, t), suffix == "/udp", suffix), Pieces(HostIn(h), p, t);
    WrittenIsClean(published);
    WrittenIsClean(target);
    EntrySplits(h, p, t, suffix, entry, s);
    BodyReads(h, p, t);
    PortReads(published);
    PortReads(target);
    ParsedPieces(service, index, entry, s, pieces, addresses);
    BoundIs(service, index, h, published, target, s, pieces, addresses);
  }

  // ----- nothing else is read

  lemma SplitIsWritten(entry: string)
    requires SplitProtocol(entry).Ok?
    ensures var s := SplitProtocol(entry).value;
            entry == s.body + s.suffix && s.suffix in SUFFIXES && '/' !in s.body && s.udp == (s.suffix == "/udp")
  {
    SplitIs(entry);
    var i := CharAt(entry, '/');
    if i < |entry| {
      assert entry == entry[..i] + [entry[i]] + entry[i + 1..];
    }
  }

  lemma PiecesAreWritten(body: string) returns (h: HostText)
    requires PiecesOf(body).Ok? && '/' !in body
    ensures var p := PiecesOf(body).value;
            HostIn(h) == p.host && body == Body(h, p.published, p.target) && (p.host != Some("") ==> WellFormed(h))
  {
    var p := PiecesOf(body).value;
    if body != [] && body[0] == '[' {
      var close := CharAt(body, ']');
      h := Bracketed(body[1..close]);
      SplitJoin(body[close + 2..]);
      TwoJoined(SplitParts(body[close + 2..]).value);
      assert body == "[" + body[1..close] + "]:" + body[close + 2..];
    } else {
      var parts := SplitParts(body).value;
      SplitJoin(body);
      if |parts| == 2 {
        h := NoHost;
        TwoJoined(parts);
        assert body == HostWritten(h) + body;
      } else {
        h := Bare(parts[0]);
        ThreeJoined(parts);
        SplitClean(body, 0);
        assert body == parts[0] + ":" + (parts[1] + ":" + parts[2]);
        assert parts[0] != "" ==> body[0] == parts[0][0];
      }
    }
  }

  lemma TwoJoined(parts: seq<string>)
    requires |parts| == 2
    ensures Joined(parts) == parts[0] + ":" + parts[1]
  {
    assert parts[1..] == [parts[1]];
  }

  lemma ThreeJoined(parts: seq<string>)
    requires |parts| == 3
    ensures Joined(parts) == parts[0] + ":" + (parts[1] + ":" + parts[2])
  {
    TwoJoined(parts[1..]);
  }

  lemma BoundPorts(service: string, index: nat, s: Split, p: Pieces, addresses: Addresses)
    requires BindShort(service, index, s, p, addresses).Ok?
    ensures PortOfText(p.published).Ok? && PortOfText(p.target).Ok? && p.host != Some("")
  {
  }

  /** An entry is read only if it is written like that. */
  lemma ReadEntryIsWritten(service: string, index: nat, entry: string, addresses: Addresses)
    returns (h: HostText, published: PortText, target: PortText, suffix: string)
    requires ParseShort(service, index, entry, addresses).Ok?
    ensures WellFormed(h) && Fits(published) && Fits(target) && suffix in SUFFIXES
    ensures entry == ShortEntry(h, published, target, suffix)
  {
    var s := SplitProtocol(entry).value;
    var p := PiecesOf(s.body).value;
    SplitIsWritten(entry);
    suffix := s.suffix;
    h := PiecesAreWritten(s.body);
    ParsedPieces(service, index, entry, s, p, addresses);
    BoundPorts(service, index, s, p, addresses);
    published := PortIsWritten(p.published);
    target := PortIsWritten(p.target);
  }

  // ----- the long form

  /** A port field: an integer or a text. */
  datatype PortField = AsInt(value: int) | AsText(text: PortText)

  function FieldValue(f: PortField): Value {
    match f
    case AsInt(n) => Atom(Int(n))
    case AsText(t) => Atom(Str(Written(t)))
  }

  function NumberIn(f: PortField): int {
    match f
    case AsInt(n) => n
    case AsText(t) => t.n
  }

  predicate InRange(f: PortField) {
    1 <= NumberIn(f) <= 65535 && (f.AsText? ==> Fits(f.text))
  }

  lemma FieldReads(f: PortField)
    requires InRange(f)
    ensures PortOf(FieldValue(f)) == Ok(NumberIn(f))
  {
    if f.AsText? { TextReads(f.text); }
  }

  lemma TextReads(t: PortText)
    requires 1 <= t.n <= 65535 && Fits(t)
    ensures PortOf(Atom(Str(Written(t)))) == Ok(t.n)
  {
    PortReads(t);
  }

  /** What the field holds, None if there is none. */
  function FieldOf(entries: seq<ComposeValues.Entry>, key: string): Option<Value> {
    if Has(entries, key) then Some(Get(entries, key)) else None
  }

  /** `host_ip`: without one, or with null, every address; otherwise an address. */
  predicate HostFieldIs(v: Option<Value>, host: Option<string>) {
    if host.None? then v.None? || v == Some(Atom(Null)) else v == Some(Atom(Str(host.value)))
  }

  predicate ProtocolFieldIs(v: Option<Value>, udp: bool) {
    if udp then v == Some(Atom(Str("udp"))) else v.None? || v == Some(Atom(Str("tcp")))
  }

  lemma ProtocolReads(entries: seq<ComposeValues.Entry>, udp: bool)
    requires ProtocolFieldIs(FieldOf(entries, "protocol"), udp)
    ensures ProtocolOf(entries) == Ok(udp)
  {
    assert "tcp"[0] != "udp"[0];
  }

  lemma HostReads(entries: seq<ComposeValues.Entry>, host: Option<string>, addresses: Addresses)
    requires HostFieldIs(FieldOf(entries, "host_ip"), host)
    requires host.Some? ==> host.value != "" && addresses(host.value).Some?
    ensures HostField(entries, addresses) == Ok((host, host.Some? && addresses(host.value) == Some(true)))
  {
    if host.Some? {
      var loopback := addresses(host.value).value;
      assert HostOf(host, addresses) == Ok((host, loopback));
      assert (addresses(host.value) == Some(true)) == loopback;
      assert (host.Some? && addresses(host.value) == Some(true)) == loopback;
      assert HostField(entries, addresses) == HostOf(host, addresses);
    } else {
      assert HostField(entries, addresses) == HostOf(None, addresses);
    }
  }

  /** A long entry is read as the binding its fields say. */
  lemma LongEntryReads(service: string, index: nat, entry: Value, published: PortField, target: PortField,
                       host: Option<string>, udp: bool, addresses: Addresses)
    requires entry.Mapping? && TagOf(entry).None?
    requires FieldOf(entry.entries, "published") == Some(FieldValue(published)) && InRange(published)
    requires FieldOf(entry.entries, "target") == Some(FieldValue(target)) && InRange(target)
    requires HostFieldIs(FieldOf(entry.entries, "host_ip"), host) && ProtocolFieldIs(FieldOf(entry.entries, "protocol"), udp)
    requires host.Some? ==> host.value != "" && addresses(host.value).Some?
    ensures ParseEntry(service, index, entry, addresses) ==
            Ok(Binding(service, index, NumberIn(target), NumberIn(published), udp, host,
                       host.Some? && addresses(host.value) == Some(true), None))
  {
    FieldReads(published);
    FieldReads(target);
    ProtocolReads(entry.entries, udp);
    HostReads(entry.entries, host, addresses);
  }

  /** And a text is a short entry. */
  lemma ShortEntryReads(service: string, index: nat, h: HostText, published: PortText, target: PortText, suffix: string,
                        addresses: Addresses)
    requires WellFormed(h) && Fits(published) && Fits(target) && suffix in SUFFIXES
    ensures ParseEntry(service, index, Atom(Str(ShortEntry(h, published, target, suffix))), addresses) ==
            Meant(service, index, h, published, target, suffix, addresses)
  {
    WrittenEntryReads(service, index, h, published, target, suffix, addresses);
  }
}
