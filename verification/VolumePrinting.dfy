/** Volume entries as somebody writes them, and which host bind they are read as. */
module VolumePrinting {
  import opened Basics
  import opened ComposeValues
  import opened Risk
  import Mutations

  // ----- options behind the last colon

  /** The options, with commas between them. */
  function Listed(tokens: seq<string>): string
    requires tokens != []
  {
    if |tokens| == 1 then tokens[0] else tokens[0] + "," + Listed(tokens[1..])
  }

  predicate Letter(c: char) {
    'A' <= c <= 'Z' || 'a' <= c <= 'z'
  }

  /** Letters, digits, dots, underscores and dashes. */
  predicate IsOption(token: string) {
    token != [] && forall i :: 0 <= i < |token| ==>
      Letter(token[i]) || '0' <= token[i] <= '9' || token[i] == '.' || token[i] == '_' || token[i] == '-'
  }

  predicate AreOptions(tokens: seq<string>) {
    tokens != [] && forall i :: 0 <= i < |tokens| ==> IsOption(tokens[i])
  }

  lemma {:induction false} ListedIsMode(tokens: seq<string>)
    requires AreOptions(tokens)
    ensures IsScalarMode(Listed(tokens)) && ':' !in Listed(tokens)
    decreases |tokens|
  {
    var first := tokens[0];
    assert IsOption(first);
    if |tokens| > 1 {
      var rest := Listed(tokens[1..]);
      ListedIsMode(tokens[1..]);
      assert Listed(tokens) == first + "," + rest;
    }
  }

  /** The first token of a list, and what is behind its comma. */
  lemma TokenOfTwo(first: string, rest: string, token: string)
    requires IsOption(first)
    ensures HasToken(first + "," + rest, token) <==> first == token || HasToken(rest, token)
  {
    var s, n := first + "," + rest, |first|;
    assert forall k :: 0 <= k < n ==> s[k] == first[k] && s[k] != ',';
    assert s[n] == ',' && s[n + 1..] == rest && s[..n] == first;
    if HasToken(s, token) {
      var i, j :| 0 <= i <= j <= |s| && IsToken(s, i, j) && s[i..j] == token;
      TokenSplits(first, rest, s, token, i, j);
    }
    if first == token { assert IsToken(s, 0, n) && s[0..n] == token; }
    if HasToken(rest, token) {
      var i, j :| 0 <= i <= j <= |rest| && IsToken(rest, i, j) && rest[i..j] == token;
      TokenMoves(s, rest, n + 1, token, i, j);
    }
  }

  lemma TokenMoves(s: string, rest: string, n: nat, token: string, i: nat, j: nat)
    requires 0 < n <= |s| && s[n - 1] == ',' && s[n..] == rest
    requires i <= j <= |rest| && IsToken(rest, i, j) && rest[i..j] == token
    ensures HasToken(s, token)
  {
    assert forall k :: 0 <= k < |rest| ==> s[n + k] == rest[k];
    forall k | n + i <= k < n + j ensures s[k] != ',' { assert s[k] == rest[k - n]; }
    assert s[n + i..n + j] == rest[i..j];
    assert IsToken(s, n + i, n + j);
  }

  lemma TokenSplits(first: string, rest: string, s: string, token: string, i: nat, j: nat)
    requires IsOption(first) && s == first + "," + rest && i <= j <= |s| && IsToken(s, i, j) && s[i..j] == token
    ensures first == token || HasToken(rest, token)
  {
    var n := |first|;
    assert forall k :: 0 <= k < n ==> s[k] == first[k] && s[k] != ',';
    assert s[n] == ',';
    if i <= n {
      assert i == 0 && j == n && s[0..n] == first;
    } else {
      assert s[n + 1..] == rest;
      TokenShifts(s, rest, n + 1, token, i, j);
    }
  }

  lemma TokenShifts(s: string, rest: string, n: nat, token: string, i: nat, j: nat)
    requires n <= i <= j <= |s| && s[n..] == rest && IsToken(s, i, j) && s[i..j] == token
    ensures HasToken(rest, token)
  {
    var a, b := i - n, j - n;
    assert forall k :: 0 <= k < |rest| ==> rest[k] == s[n + k];
    forall k | a <= k < b ensures rest[k] != ',' { assert rest[k] == s[n + k]; }
    assert rest[a..b] == s[i..j];
    assert IsToken(rest, a, b);
  }

  lemma TokenOfOne(first: string, token: string)
    requires IsOption(first)
    ensures HasToken(first, token) <==> first == token
  {
    assert forall k :: 0 <= k < |first| ==> first[k] != ',';
    if HasToken(first, token) {
      var i, j :| 0 <= i <= j <= |first| && IsToken(first, i, j) && first[i..j] == token;
      assert i == 0 && j == |first| && first[0..|first|] == first;
    }
    if first == token { assert IsToken(first, 0, |first|) && first[0..|first|] == first; }
  }

  lemma {:induction false} TokensAre(tokens: seq<string>, token: string)
    requires AreOptions(tokens)
    ensures HasToken(Listed(tokens), token) <==> token in tokens
    decreases |tokens|
  {
    assert IsOption(tokens[0]);
    if |tokens| == 1 {
      TokenOfOne(tokens[0], token);
    } else {
      TokensAre(tokens[1..], token);
      TokenOfTwo(tokens[0], Listed(tokens[1..]), token);
      assert tokens == [tokens[0]] + tokens[1..];
    }
  }

  // ----- host paths

  /** A drive letter, a colon and a slash. */
  predicate OnDrive(source: string) {
    |source| >= 3 && Letter(source[0]) && source[1] == ':' && (source[2] == '/' || source[2] == '\\')
  }

  /** What a path of the host begins with. */
  predicate OfHost(source: string) {
    || "/" <= source || "./" <= source || ".\\" <= source || "~/" <= source || "../" <= source || "..\\" <= source
    || "\\\\" <= source || OnDrive(source)
  }

  lemma HostPathIs(source: string)
    ensures IsHostPath(source) <==> OfHost(source)
  {
    var back, two := "\\", "\\\\";
    assert two[0] == two[1] == back[0] == '\\';
  }

  lemma PrefixIsPath(source: string, more: string)
    ensures IsHostPathPrefix(source + more, |source|) <==> IsHostPath(source)
  {
  }

  /** The text has no colon but that of its drive. */
  predicate OneDriveAtMost(source: string) {
    forall i :: 0 <= i < |source| && source[i] == ':' ==> i == 1 && OnDrive(source)
  }

  /** A path in the container: from a slash or from two backslashes, or on a drive and then from a single backslash; with
      no colon but that of the drive. */
  predicate IsTarget(target: string) {
    if OnDrive(target) then target[2] == '\\' && (|target| == 3 || target[3] != '\\') && ':' !in target[2..]
    else ':' !in target && ("/" <= target || "\\\\" <= target)
  }

  // ----- the whole entry

  function Mount(source: string, target: string): string {
    source + ":" + target
  }

  lemma TargetStarts(target: string)
    requires IsTarget(target)
    ensures |target| > 0 && IsContainerPathRange(target, 0, |target|)
    ensures forall i :: 0 <= i < |target| && target[i] == ':' ==> i == 1 && !IsContainerPathRange(target, 2, |target|)
    ensures !IsModeChar(target[0]) || OnDrive(target)
  {
    var two := "\\\\";
    assert two[0] == two[1] == '\\';
    if OnDrive(target) {
      forall i | 2 <= i < |target| ensures target[i] != ':' { assert target[2..][i - 2] == target[i]; }
    }
  }

  /** A container path is recognised by what stands in its range. */
  lemma SameRange(volume: string, from: nat, target: string, i: nat)
    requires from + |target| <= |volume| && volume[from..from + |target|] == target && i <= |target|
    ensures IsContainerPathRange(volume, from + i, from + |target|) <==> IsContainerPathRange(target, i, |target|)
  {
    assert forall k :: 0 <= k < |target| ==> volume[from + k] == target[k];
  }

  lemma SplitsInMount(source: string, target: string, more: string, j: nat)
    requires OneDriveAtMost(source) && IsTarget(target) && j < |Mount(source, target)|
    ensures Splits(Mount(source, target) + more, j, |Mount(source, target)|) <==> j == |source| && OfHost(source)
  {
    var mount := Mount(source, target);
    var volume, from := mount + more, |source| + 1;
    HostPathIs(source);
    TargetStarts(target);
    assert volume == source + (":" + target + more);
    PrefixIsPath(source, ":" + target + more);
    assert volume[from..from + |target|] == target;
    SameRange(volume, from, target, 0);
    if j < |source| {
      assert volume[j] == source[j];
      if source[j] == ':' { assert volume[0] == source[0]; }
    } else if j > |source| {
      assert volume[j] == target[j - from];
      if target[j - from] == ':' { SameRange(volume, from, target, 2); }
    } else {
      assert volume[j] == ':';
    }
  }

  /** The mount is split in one place, if its source is a path of the host. */
  lemma MountScans(source: string, target: string, more: string, volume: string, end: nat)
    requires OneDriveAtMost(source) && IsTarget(target) && volume == Mount(source, target) + more && end == |Mount(source, target)|
    ensures ScanSplits(volume, end, end, None) == if OfHost(source) then Some(|source|) else None
  {
    forall j | 0 <= j < end && Splits(volume, j, end) ensures j == |source| && OfHost(source) {
      SplitsInMount(source, target, more, j);
    }
    SplitsInMount(source, target, more, |source|);
    var r := ScanSplits(volume, end, end, None);
    if OfHost(source) { assert OnlySplit(volume, |source|, end); }
  }

  lemma {:induction false} LastColonIs(volume: string, i: nat)
    requires i < |volume| && volume[i] == ':' && (forall k :: i < k < |volume| ==> volume[k] != ':')
    ensures LastColon(volume) == i
    decreases |volume|
  {
    if i < |volume| - 1 { LastColonIs(volume[..|volume| - 1], i); }
  }

  /** A mount with options behind it, or without. */
  function VolumeEntry(source: string, target: string, options: seq<string>): string {
    if options == [] then Mount(source, target) else Mount(source, target) + ":" + Listed(options)
  }

  /** Where the last colon of a mount stands, and why what is behind it is no list of options. */
  lemma NoModeBehind(source: string, target: string, volume: string)
    requires IsTarget(target) && volume == Mount(source, target)
    ensures var colon := LastColon(volume); colon >= 0 && !IsScalarMode(volume[colon + 1..])
  {
    TargetStarts(target);
    var from := |source| + 1;
    assert volume[from..] == target;
    var colon := if OnDrive(target) then from + 1 else |source|;
    assert volume[|source|] == ':' && forall k :: 0 <= k < |target| ==> volume[from + k] == target[k];
    LastColonIs(volume, colon);
    var mode := volume[colon + 1..];
    assert mode[0] == if OnDrive(target) then target[2] else target[0];
  }

  lemma PlainMount(source: string, target: string)
    requires OneDriveAtMost(source) && IsTarget(target)
    ensures ShortHostBind(Mount(source, target)) == if OfHost(source) then Some(Bind(source, true)) else None
  {
    var volume := Mount(source, target);
    assert volume + "" == volume;
    MountScans(source, target, "", volume, |volume|);
    NoModeBehind(source, target, volume);
    assert volume[..|source|] == source;
  }

  lemma {:induction false} MountWith(source: string, target: string, options: seq<string>)
    requires OneDriveAtMost(source) && IsTarget(target) && AreOptions(options)
    ensures ShortHostBind(Mount(source, target) + ":" + Listed(options)) ==
            if OfHost(source) then Some(Bind(source, "ro" !in options)) else None
  {
    var mount, mode := Mount(source, target), Listed(options);
    var volume, end := mount + ":" + mode, |mount|;
    ListedIsMode(options);
    TokensAre(options, "ro");
    assert volume == mount + (":" + mode);
    MountScans(source, target, ":" + mode, volume, end);
    assert volume[end] == ':' && volume[end + 1..] == mode && volume[..|source|] == source;
    forall k | end < k < |volume| ensures volume[k] != ':' { assert volume[k] == mode[k - end - 1]; }
    LastColonIs(volume, end);
  }

  /** A written entry is a bind of its source if that is a path of the host, and may be written to unless `ro` is among the
      options; anything else is no bind of the host. */
  lemma WrittenVolumeReads(source: string, target: string, options: seq<string>)
    requires OneDriveAtMost(source) && IsTarget(target) && (options == [] || AreOptions(options))
    ensures RecognizedHostBind(Atom(Str(VolumeEntry(source, target, options)))) ==
            if OfHost(source) then Some(Bind(source, "ro" !in options)) else None
  {
    if options == [] { PlainMount(source, target); } else { MountWith(source, target, options); }
  }

  /** A long entry of type bind likewise, unless `read_only` is set. */
  lemma LongVolumeReads(entry: Value, source: string)
    requires entry.Mapping? && TagOf(entry).None? && Has(entry.entries, "source") && Get(entry.entries, "source") == Atom(Str(source))
    ensures RecognizedHostBind(entry) ==
            if Has(entry.entries, "type") && EffectiveValue(Get(entry.entries, "type")) == Read(Atom(Str("bind"))) && OfHost(source)
            then Some(Bind(source, !(Has(entry.entries, "read_only") &&
                                     EffectiveValue(Get(entry.entries, "read_only")) == Read(Atom(Bool(true))))))
            else None
  {
    HostPathIs(source);
  }

  // ----- the Docker socket

  /** The path of the Docker socket, with slashes of either kind. */
  predicate IsSocketPath(source: string) {
    var path := "/var/run/docker.sock";
    |source| == |path| && forall i :: 0 <= i < |path| ==> source[i] == path[i] || (path[i] == '/' && source[i] == '\\')
  }

  lemma SocketPathIs(source: string)
    ensures IsDockerSocket(source) <==> IsSocketPath(source)
  {
    var path := "/var/run/docker.sock";
    assert forall i :: 0 <= i < |path| ==> path[i] != '\\';
    if IsDockerSocket(source) {
      forall i | 0 <= i < |path| ensures source[i] == path[i] || (path[i] == '/' && source[i] == '\\') {
        assert Slashed(source)[i] == path[i];
      }
    }
    if IsSocketPath(source) {
      forall i | 0 <= i < |path| ensures Slashed(source)[i] == path[i] {}
      assert Slashed(source) == path;
    }
  }

  /** A written entry is removed as a Docker socket iff its source is the socket's path on the host, and it is a finding of
      its own iff it may be written to; any other host path that may be written to is a finding of the other kind. */
  lemma WrittenSocketReads(source: string, target: string, options: seq<string>, entry: Value)
    requires OneDriveAtMost(source) && IsTarget(target) && (options == [] || AreOptions(options))
    requires entry == Atom(Str(VolumeEntry(source, target, options)))
    ensures Mutations.IsSocketBind(entry) <==> OfHost(source) && IsSocketPath(source)
    ensures IsSocketRw(entry) <==> OfHost(source) && IsSocketPath(source) && "ro" !in options
    ensures IsHostRw(entry) <==> OfHost(source) && !IsSocketPath(source) && "ro" !in options
  {
    WrittenVolumeReads(source, target, options);
    SocketPathIs(source);
  }
}
