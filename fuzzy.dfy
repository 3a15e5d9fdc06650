/**
 * The fuzzy matcher both index modules call (`process.extract` with the
 * `token_set_ratio` scorer) as an uninterpreted oracle. All the model
 * relies on is what the library promises about its result: at most
 * `limit` matches, each naming a choice by its index, carrying that
 * choice's text and an integer score between `score_cutoff` and 100.
 */
module Fuzzy {

  /** One result of `process.extract`: the matched choice, its score, its index in the choices. */
  datatype Match = Match(text: string, score: int, index: nat)

  predicate MatchesOk(ms: seq<Match>, choices: seq<string>, limit: int, cutoff: int) {
    && (limit >= 0 ==> |ms| <= limit)
    && forall k :: 0 <= k < |ms| ==>
         ms[k].index < |choices| && ms[k].text == choices[ms[k].index] && cutoff <= ms[k].score <= 100
  }

  ghost predicate Sound(f: (string, seq<string>, int, int) -> seq<Match>) {
    forall query, choices, limit, cutoff :: MatchesOk(f(query, choices, limit, cutoff), choices, limit, cutoff)
  }

  /** `process.extract(query, choices, limit=limit, score_cutoff=cutoff)` */
  type Extractor = f: (string, seq<string>, int, int) -> seq<Match> | Sound(f)
    witness (query: string, choices: seq<string>, limit: int, cutoff: int) => []
}
