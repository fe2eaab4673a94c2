/**
 The pipeline's states and the single path through them.
 */
module Stages {
  import opened Options

  datatype Stage =
    | Discovered | Fetched | Parsed | Normalized | Deduped | Enriched | Embedded | Ready | FailedPermanent

  /** `happyPath`: the only transitions a stage may make. */
  const HAPPY_PATH: map<Stage, Stage> := map[
    Discovered := Fetched, Fetched := Parsed, Parsed := Normalized, Normalized := Deduped,
    Deduped := Enriched, Enriched := Embedded, Embedded := Ready]

  function Next(s: Stage): Option<Stage> {
    if s in HAPPY_PATH then Some(HAPPY_PATH[s]) else None
  }

  predicate Terminal(s: Stage) {
    s == Ready || s == FailedPermanent
  }

  predicate Degradable(s: Stage) {
    s == Deduped || s == Enriched
  }

  /** The stages after normalization, in which the derived fields are relied on. */
  predicate Derived(s: Stage) {
    s in {Normalized, Deduped, Enriched, Embedded, Ready}
  }

  /** The one way through the pipeline. */
  const PATH: seq<Stage> := [Discovered, Fetched, Parsed, Normalized, Deduped, Enriched, Embedded, Ready]

  /** Each state is followed by the next on the path; only extraction and enrichment are optional. */
  lemma PathIsFollowed(k: nat)
    requires k < |PATH|
    ensures Next(PATH[k]) == if k + 1 < |PATH| then Some(PATH[k + 1]) else None
    ensures Next(FailedPermanent) == None
    ensures Degradable(PATH[k]) <==> k == 4 || k == 5
    ensures Terminal(PATH[k]) <==> k == 7
    ensures Derived(PATH[k]) <==> k >= 3
    ensures Remaining(PATH[k]) == 7 - k
  {
  }

  /** How many transitions are left until `ready`. */
  function Remaining(s: Stage): nat {
    match s
    case Discovered => 7
    case Fetched => 6
    case Parsed => 5
    case Normalized => 4
    case Deduped => 3
    case Enriched => 2
    case Embedded => 1
    case Ready => 0
    case FailedPermanent => 0
  }

  /** A state has a successor exactly when it is not terminal, and the successor is one step nearer to `ready`. */
  lemma PathIsALine(s: Stage)
    ensures Next(s).None? <==> Terminal(s)
    ensures Next(s).Some? ==> Next(s).value != FailedPermanent && Remaining(Next(s).value) == Remaining(s) - 1
    ensures Next(s).Some? && Derived(Next(s).value) ==> s == Parsed || Derived(s)
  {
  }
}
