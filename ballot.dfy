/** The fixed candidates and evaluation dimensions, the shape of a stored vote,
    the shape of a raw submission and the check a submission must pass before it
    is stored (server.js, the `vote` handler). */
module Ballot {
  import opened Wrappers

  /** The four candidates, identified by the literals 'A'..'D'. */
  datatype Cand = A | B | C | D

  /** The six evaluation dimensions, by their keys in `dimensionKeys`. */
  datatype Dim = Analysis | Plan | Solve | Reaction | Speak | Behave

  /** Candidates in the order the aggregation iterates them. */
  const Cands: seq<Cand> := [A, B, C, D]

  /** Dimensions in the fixed order of `dimensionKeys` and of the literal
      `dimensionCandidateScores`. */
  const DimKeys: seq<Dim> := [Analysis, Plan, Solve, Reaction, Speak, Behave]

  function CandIndex(c: Cand): (i: nat)
    ensures i < |Cands| && Cands[i] == c
  {
    match c
    case A => 0
    case B => 1
    case C => 2
    case D => 3
  }

  function DimIndex(d: Dim): (i: nat)
    ensures i < |DimKeys| && DimKeys[i] == d
  {
    match d
    case Analysis => 0
    case Plan => 1
    case Solve => 2
    case Reaction => 3
    case Speak => 4
    case Behave => 5
  }

  /** The display name of a dimension (`dimensionMap`). */
  function DimName(d: Dim): string
  {
    match d
    case Analysis => "综合分析能力"
    case Plan => "计划统筹能力"
    case Solve => "计划和解决问题能力"
    case Reaction => "反应能力"
    case Speak => "语言表达能力"
    case Behave => "举止仪表"
  }

  /** Distinct dimensions get distinct display names, so the names can key the
      per-candidate extremes without collisions. */
  lemma DimNamesDistinct(d: Dim, e: Dim)
    ensures DimName(d) == DimName(e) <==> d == e
  {
  }

  /** The four mandatory candidate-level scores of one vote. */
  datatype Scores = Scores(a: int, b: int, c: int, d: int)
  {
    function Get(x: Cand): int {
      match x
      case A => a
      case B => b
      case C => c
      case D => d
    }
  }

  /** Optional per-dimension, per-candidate scores: a key that is absent from
      either map is a score the voter did not supply. */
  type DimScores = map<Dim, map<Cand, int>>

  /** A stored vote. `dimensions` is `None` when the submission had none. */
  datatype Vote = Vote(candidates: Scores, dimensions: Option<DimScores>)

  /** A submitted field: a number, or any other value (absent included). */
  datatype Value = Number(n: int) | NotNumber

  datatype RawCandidates = RawCandidates(a: Value, b: Value, c: Value, d: Value)
  {
    function Get(x: Cand): Value {
      match x
      case A => a
      case B => b
      case C => c
      case D => d
    }
  }

  /** A raw submission: `candidates` is `None` when it is missing or falsy. */
  datatype Submission = Submission(candidates: Option<RawCandidates>, dimensions: Option<DimScores>)

  /** The validation rule: `candidates` is present and all four of its fields
      are numbers. */
  predicate WellFormed(s: Submission) {
    && s.candidates.Some?
    && s.candidates.value.a.Number?
    && s.candidates.value.b.Number?
    && s.candidates.value.c.Number?
    && s.candidates.value.d.Number?
  }

  /** The record stored for an accepted submission, or `None` for a rejected
      one. An accepted record carries the submitted scores and dimension data
      unchanged. */
  function Validate(s: Submission): (r: Option<Vote>)
    ensures r.Some? <==> WellFormed(s)
    ensures r.Some? ==> r.value.dimensions == s.dimensions
    ensures r.Some? ==> forall x: Cand :: r.value.candidates.Get(x) == s.candidates.value.Get(x).n
  {
    match s.candidates
    case None => None
    case Some(raw) =>
      if raw.a.Number? && raw.b.Number? && raw.c.Number? && raw.d.Number? then
        Some(Vote(Scores(raw.a.n, raw.b.n, raw.c.n, raw.d.n), s.dimensions))
      else
        None
  }
}
