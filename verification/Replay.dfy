/** The chain of kept mutations, from the baseline document to the current one. */
module Replay {
  import opened Basics
  import opened ComposeValues
  import opened Mutations
  import opened MutationLaws
  import opened MutationMeaning
  import opened Policy
  import opened PolicyHistory

  /** Any hash of the canonical tree; nothing below needs it to be free of collisions. */
  type Digest = Canon -> string

  datatype ReplayError =
    | ParentMismatch | MutationRejected(failure: MutationFailure) | NotCanonical | CandidateMismatch

  datatype Chain = Chain(tree: Value, hash: string, keeps: nat)

  function HashOf(doc: Value, digest: Digest): Result<string, ReplayError> {
    match CanonicalForm(doc)
    case Ok(c) => Ok(digest(c))
    case Err(_) => Err(NotCanonical)
  }

  /** One record checked and, when it was kept, applied. */
  function ReplayRecord(at: Chain, r: Record, digest: Digest): Result<Chain, ReplayError> {
    if r.parentHash != at.hash then Err(ParentMismatch) else
      match ApplyMutation(at.tree, r.mutation)
      case Err(failure) => Err(MutationRejected(failure))
      case Ok(candidate) =>
        match HashOf(candidate, digest)
        case Err(error) => Err(error)
        case Ok(hash) =>
          if hash != r.candidateHash then Err(CandidateMismatch)
          else Ok(if r.verdict == Keep then Chain(candidate, hash, at.keeps + 1) else at)
  }

  function ReplayChain(start: Chain, experiments: seq<Record>, digest: Digest): Result<Chain, ReplayError> {
    if experiments == [] then Ok(start) else
      match ReplayChain(start, experiments[..|experiments| - 1], digest)
      case Err(error) => Err(error)
      case Ok(at) => ReplayRecord(at, experiments[|experiments| - 1], digest)
  }

  /** The replay as the report stage runs it. */
  method ReplayExperiments(baseline: Value, baselineHash: string, experiments: seq<Record>, digest: Digest)
    returns (r: Result<Chain, ReplayError>)
    ensures r == ReplayChain(Chain(baseline, baselineHash, 0), experiments, digest)
  {
    var at := Chain(baseline, baselineHash, 0);
    ghost var start := at;
    for i := 0 to |experiments|
      invariant ReplayChain(start, experiments[..i], digest) == Ok(at)
    {
      PrefixStep(experiments, i);
      ReplayFailsEarly(start, experiments, i + 1, digest);
      var next := ReplayRecord(at, experiments[i], digest);
      if next.Err? { return Err(next.error); }
      at := next.value;
    }
    assert experiments[..|experiments|] == experiments;
    r := Ok(at);
  }

  lemma {:induction false} ReplayFailsEarly(start: Chain, experiments: seq<Record>, n: nat, digest: Digest)
    requires n <= |experiments|
    ensures ReplayChain(start, experiments[..n], digest).Err? ==>
              ReplayChain(start, experiments, digest) == ReplayChain(start, experiments[..n], digest)
    decreases |experiments| - n
  {
    if n == |experiments| {
      assert experiments[..n] == experiments;
    } else {
      ReplayFailsEarly(start, experiments, n + 1, digest);
      PrefixStep(experiments, n);
    }
  }

  lemma ReplayAppend(start: Chain, experiments: seq<Record>, r: Record, digest: Digest)
    ensures ReplayChain(start, experiments + [r], digest) ==
            match ReplayChain(start, experiments, digest)
            case Err(error) => Err(error)
            case Ok(at) => ReplayRecord(at, r, digest)
  {
    assert (experiments + [r])[..|experiments|] == experiments;
  }

  // ----- hashes follow meanings

  lemma SameMeaningSameForm(a: Value, b: Value)
    requires Valid(a) && Valid(b) && Meaning(a) == Meaning(b)
    ensures CanonicalForm(a).Ok? <==> CanonicalForm(b).Ok?
    ensures CanonicalForm(a).Ok? ==> CanonicalForm(a) == CanonicalForm(b)
  {
    SameMeaningSameCanon(a, b);
    if Supported(a) { SameMeaningSameSupport(a, b); }
    if Supported(b) { SameMeaningSameSupport(b, a); }
  }

  lemma SameMeaningSameHash(a: Value, b: Value, digest: Digest)
    requires Valid(a) && Valid(b) && Meaning(a) == Meaning(b)
    ensures HashOf(a, digest) == HashOf(b, digest)
  {
    SameMeaningSameForm(a, b);
  }

  /** A record made from a document is replayed without complaint from any document that means the same. */
  lemma RecordReplays(at: Chain, current: Value, r: Record, digest: Digest)
    requires Valid(at.tree) && Valid(current) && Meaning(at.tree) == Meaning(current)
    requires r.parentHash == at.hash
    requires ApplyMutation(current, r.mutation).Ok?
    requires HashOf(ApplyMutation(current, r.mutation).value, digest) == Ok(r.candidateHash)
    ensures var next := ReplayRecord(at, r, digest);
            && next.Ok?
            && if r.verdict == Keep
               then next.value.keeps == at.keeps + 1 && next.value.hash == r.candidateHash && Valid(next.value.tree)
                    && Meaning(next.value.tree) == Meaning(ApplyMutation(current, r.mutation).value)
                    && ApplyMutation(at.tree, r.mutation) == Ok(next.value.tree)
               else next.value == at
  {
    ApplyMutationMeaning(at.tree, current, r.mutation);
    ApplyMutationFrame(at.tree, r.mutation);
    ApplyMutationFrame(current, r.mutation);
    SameMeaningSameHash(ApplyMutation(at.tree, r.mutation).value, ApplyMutation(current, r.mutation).value, digest);
  }

  function KeepCount(experiments: seq<Record>): nat {
    if experiments == [] then 0 else
      KeepCount(experiments[..|experiments| - 1]) + if experiments[|experiments| - 1].verdict == Keep then 1 else 0
  }

  lemma {:induction false} ReplayCounts(start: Chain, experiments: seq<Record>, digest: Digest)
    requires ReplayChain(start, experiments, digest).Ok?
    ensures ReplayChain(start, experiments, digest).value.keeps == start.keeps + KeepCount(experiments)
    ensures ReplayChain(start, experiments, digest).value.hash == CurrentHash(start.hash, experiments)
  {
    if experiments != [] {
      ReplayCounts(start, experiments[..|experiments| - 1], digest);
    }
  }
}
