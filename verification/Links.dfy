/**
 * Link generations and document epochs: which batches of page links reach the generator. A batch
 * is of the document its worker session issued the batch's generation for.
 */
module Links {
  import opened Basics

  /** A batch on its way to the generator: the epoch it carries, the document it is of. */
  datatype Batch = Batch(epoch: nat, document: Option<nat>)

  /** What has been opened so far and what has been handed to the generator. */
  datatype Docs = Docs(
    issued: map<nat, nat>,       // generations the session issued, and their documents
    document: Option<nat>,       // the document open at the plugin
    count: nat,                  // documents opened so far
    honest: bool,                // every generation issued so far was positive and new in its session
    batches: set<Batch>)
  {
    function DocumentOf(g: nat): Option<nat> { if g in issued then Some(issued[g]) else None }
    function Shut(): Docs { this.(document := None) }
    function EndSession(): Docs { this.(document := None, issued := map[]) }
    function Open(g: nat): Docs {
      this.(honest := honest && g > 0 && g !in issued, issued := issued[g := count], document := Some(count),
            count := count + 1)
    }
    function Hand(g: nat, epoch: nat): Docs { this.(batches := batches + {Batch(epoch, DocumentOf(g))}) }
  }

  const NO_DOCS := Docs(map[], None, 0, true, {})

  /** While the worker is honest, no batch of another document carries the current epoch. */
  ghost predicate LinksOk(docs: Docs, generation: nat, epoch: nat) {
    && (forall b :: b in docs.batches ==> b.epoch <= epoch)
    && (docs.honest ==>
          && 0 !in docs.issued && (generation in docs.issued ==> docs.document == Some(docs.issued[generation]))
          && forall b :: b in docs.batches && b.epoch == epoch && b.document.Some? ==> b.document == docs.document)
  }

  lemma Advance(docs: Docs, generation: nat, epoch: nat)
    requires LinksOk(docs, generation, epoch)
    ensures LinksOk(docs.EndSession(), generation, epoch + 1) && LinksOk(docs.Shut(), 0, epoch + 1)
  {
  }

  lemma Publish(docs: Docs, generation: nat, epoch: nat, g: nat)
    requires LinksOk(docs, generation, epoch) && docs.document == None
    ensures LinksOk(docs.Open(g), g, epoch)
  {
  }

  lemma Deliver(docs: Docs, generation: nat, epoch: nat, asked: nat)
    requires LinksOk(docs, generation, epoch) && asked <= epoch
    ensures LinksOk(docs.Hand(generation, asked), generation, epoch)
  {
  }
}
