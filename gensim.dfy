/** The parts of gensim the statistics call, left uninterpreted: a
    `Dictionary` is identified by the documents added to it, in order, and
    `doc2bow`, `Dictionary.get` and `TfidfModel[bow]` are functions the
    caller supplies. The weighting formula lives in gensim, not here. */
module Gensim {
  import opened Wrappers

  /** A bag of words: `(token id, count)` pairs. */
  type Bow = seq<(nat, nat)>

  /** The documents added to a `Dictionary` with `add_documents`. */
  type Vocab = seq<seq<string>>

  /** `TfidfModel(corpus, dictionary=..., smartirs=...)`. */
  datatype Model = Model(corpus: seq<Bow>, vocab: Vocab, smartirs: Option<string>)

  datatype Gensim = Gensim(
    doc2bow: (Vocab, seq<string>) -> Bow,          // `dictionary.doc2bow(text)`
    get: (Vocab, nat) -> Option<string>,           // `dictionary.get(id)`
    weigh: (Model, Bow) -> seq<(nat, real)>)       // `model[bow]`: `(id, score)` pairs
}
