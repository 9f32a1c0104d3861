/**
 * The cached outline of the open document. embedded and generated are the outlines the worker has
 * for it; truthful records that every answer so far agreed with them.
 */
module Outlines {
  import opened Basics

  datatype Truth = Truth(embedded: seq<string>, generated: seq<string>, truthful: bool) {
    function Witness(answer: seq<string>, truth: seq<string>): Truth { this.(truthful := truthful && answer == truth) }
  }

  /** The answer without a cache: the embedded outline if any, else a generated one where allowed, else none. */
  function Uncached(t: Truth, allow: bool): (seq<string>, bool) {
    if t.embedded != [] then (t.embedded, false) else if allow then (t.generated, true) else ([], false)
  }

  predicate CacheOk(t: Truth, synopsis: Option<seq<string>>, generated: bool) {
    t.truthful && synopsis.Some? ==> (synopsis.value, generated) == Uncached(t, true)
  }
}
