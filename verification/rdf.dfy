/** Abstract RDF values: terms, triples and quads. Only equality of these values matters to the model. */
module Rdf {
  import opened Wrappers

  datatype Term =
    | Iri(iri: string)
    | BlankNode(reference: string)
    | Literal(lexical: string, datatypeIri: string)

  datatype Triple = Triple(subject: Term, property: Term, object: Term)

  /** A quad is a triple placed in an (optional) named graph. */
  datatype Quad = Quad(graphName: Option<Term>, subject: Term, property: Term, object: Term)
}
