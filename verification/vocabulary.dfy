/**
 * The IRIs the core uses, as published by the W3C Linked Data Platform 1.0 vocabulary,
 * the Trellis vocabulary and the Activity Streams 2.0 vocabulary.
 */
module Vocabulary {

  const LdpResource: string := "http://www.w3.org/ns/ldp#Resource"
  const LdpRDFSource: string := "http://www.w3.org/ns/ldp#RDFSource"
  const LdpNonRDFSource: string := "http://www.w3.org/ns/ldp#NonRDFSource"
  const LdpContainer: string := "http://www.w3.org/ns/ldp#Container"
  const LdpBasicContainer: string := "http://www.w3.org/ns/ldp#BasicContainer"
  const LdpDirectContainer: string := "http://www.w3.org/ns/ldp#DirectContainer"
  const LdpIndirectContainer: string := "http://www.w3.org/ns/ldp#IndirectContainer"
  const LdpConstrainedBy: string := "http://www.w3.org/ns/ldp#constrainedBy"

  const PreferUserManaged: string := "http://www.trellisldp.org/ns/trellis#PreferUserManaged"
  const UnsupportedInteractionModel: string := "http://www.trellisldp.org/ns/trellis#UnsupportedInteractionModel"

  const AsDelete: string := "https://www.w3.org/ns/activitystreams#Delete"

  const RdfsLabel: string := "http://www.w3.org/2000/01/rdf-schema#label"
}
