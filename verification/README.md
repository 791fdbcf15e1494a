# Trellis LDP core: a Dafny model

This project models five small pieces of the Trellis Linked Data Platform server and proves
properties of them:

- **The DELETE handler** (`DeleteHandler`). `Initialize` sorts a looked-up resource into one
  outcome, in a fixed order: 404 for the missing sentinel, 410 Gone (section 6.5.9 of RFC 7231)
  for the deleted sentinel, 400 with a `Link` to `trellis:UnsupportedInteractionModel` with rel
  `ldp:constrainedBy` (section 4.2.1.6 of W3C LDP 1.0) when the backend does not support
  `ldp:Resource`, the conditional-request check, and finally 204. `DeleteResource` then takes one
  of two branches. An ACL request becomes a replacement that keeps the user-managed quads and
  carries *update* audit data. Any other request makes one `delete` and one `add` of the
  skolemized *deletion* audit, joined, and emits the `as:Delete` event only after both succeed.
  Whenever the returned stage completes, normally or exceptionally, the immutable and then the
  mutable scratch dataset are closed. Collaborator calls
  are recorded in an effect log. Each asynchronous call's completion is an input: both joined
  calls succeed and the chain continues, or either fails and the request fails.
- **Container derivation and collectors** (`TrellisUtils`). The `trellis:` prefix constants.
  `GetContainer` drops the last path segment of a `trellis:data/…` identifier; the root has no
  container. The graph and dataset collectors accumulate into sets.
- **The interaction-model closure** (`InteractionModels`). This is the ancestor closure the
  constraint-service tests compute over the fixed LDP superclass map. It also covers the default
  two-argument `constrainedBy`, which delegates with the data prefix.
- **The namespace registry** (`JsonNamespaces`). It keeps a prefix→namespace map and a
  namespace→prefix map. `setPrefix` refuses a namespace that already has a prefix. `init` loads
  defaults into an empty map and builds the reverse map. `read` keeps only textual JSON values.
- **The request snapshot** (`Request`). This is an immutable record of path, base URL, method,
  principal name, media types, headers and query parameters. It has first-value accessors and
  the null rules for `Slug` (section 9.7 of RFC 5023), `Link` (RFC 8288) and the principal name.

## Model

| member | source | states |
|---|---|---|
| `DeleteHandler.GetIdentifier` | core/http/src/main/java/org/trellisldp/http/impl/DeleteHandler.java:69-72 | the identifier is the base identifier plus the ACL marker if and only if the request is an ACL request, and exactly the base identifier otherwise |
| `DeleteHandler.Initialize` | core/http/src/main/java/org/trellisldp/http/impl/DeleteHandler.java:81-103 | missing gives NotFound, deleted gives Gone, unsupported `ldp:Resource` gives 400 with the `constrainedBy` link, a failing cache check gives its error, in that order of precedence; success only for a found resource passing all checks, recording the resource, recording the parent only when the resource has a container, changing nothing else, and returning no-content |
| `DeleteHandler.MetadataOf` | core/http/src/main/java/org/trellisldp/http/impl/DeleteHandler.java:156 | the metadata sent to `delete` carries the resource's identifier, interaction model, container and binary metadata |
| `DeleteHandler.UserManaged` | core/http/src/main/java/org/trellisldp/http/impl/DeleteHandler.java:134-137 | the mutable dataset holds exactly the resource quads in the user-managed graph, never more than the stream |
| `DeleteHandler.UserManagedDistributes` | core/http/src/main/java/org/trellisldp/http/impl/DeleteHandler.java:135-136 | the filter keeps stream order: the user-managed quads of a concatenation are those of each part in turn |
| `DeleteHandler.SkolemizedDeletionAudit` | core/http/src/main/java/org/trellisldp/http/impl/DeleteHandler.java:150-152 | the immutable dataset holds the deletion audit quads for the resource and session, each skolemized, one for one and in order |
| `DeleteHandler.IsAclRequest` | core/http/src/main/java/org/trellisldp/http/impl/DeleteHandler.java:125-127 | the ACL branch is taken exactly when the first `ext` query parameter is `acl` |
| `DeleteHandler.HandleAclDeletion` | core/http/src/main/java/org/trellisldp/http/impl/DeleteHandler.java:132-146 | one replacement whose mutable dataset holds exactly the resource's user-managed quads and whose immutable dataset is the update audit data for the resource identifier and session; it completes normally exactly when the replacement does |
| `DeleteHandler.HandleResourceDeletion` | core/http/src/main/java/org/trellisldp/http/impl/DeleteHandler.java:124-158 | a delete of the resource metadata, then an add of the skolemized deletion audit under the resource identifier; the `as:Delete` event for the resource's interaction model follows exactly when both succeed; normal completion exactly when delete, add and event all succeed |
| `DeleteHandler.DeleteResource` | core/http/src/main/java/org/trellisldp/http/impl/DeleteHandler.java:111-122 | on every completion of the returned stage the log ends by closing the immutable and then the mutable dataset, with no close earlier; success hands on the given builder, failure is a backend failure |
| `DeleteHandler.HandleDelete` | core/http/src/main/java/org/trellisldp/http/impl/DeleteHandler.java:81-121 | a request that `initialize` rejects completes with that error and an empty log; an accepted one completes as `DeleteResource` of the handler `initialize` recorded, with the no-content builder, so it runs the ACL or the full-deletion branch and ends by closing the immutable and then the mutable dataset |
| `DeleteHandler.RejectedRequestHasNoEffects` | core/http/src/main/java/org/trellisldp/http/impl/DeleteHandler.java:83-98 | missing gives 404 and deleted gives 410 with no collaborator call; any mutating call implies the resource was found, `ldp:Resource` is supported and the cache check passed |
| `DeleteHandler.AclDeletionIsReplacement` | core/http/src/main/java/org/trellisldp/http/impl/DeleteHandler.java:124-146 | besides the replacement, the handler itself issues no delete, add or event in the ACL branch; exactly one replacement whose mutable part is the user-managed quads and whose immutable part is the update audit data, and succeeds exactly when the replacement does |
| `DeleteHandler.FullDeletionJoinsDeleteAndAdd` | core/http/src/main/java/org/trellisldp/http/impl/DeleteHandler.java:124-158 | the full deletion makes exactly one delete of the resource metadata and one add of the skolemized deletion audit under the resource identifier, and no replacement; the Delete event with the resource's interaction model appears exactly when both succeed; success exactly when delete, add and event all succeed |
| `DeleteHandler.FullDeletionEventAfterJoin` | core/http/src/main/java/org/trellisldp/http/impl/DeleteHandler.java:128-129 | in the full deletion the event comes after every mutating call |
| `DeleteHandler.SuccessfulDeleteScenario` | core/http/src/main/java/org/trellisldp/http/impl/DeleteHandler.java:81-158 | an RDF source deleted without ACL, all checks and calls passing, gives 204 with one delete, one add and one `as:Delete` event for `ldp:RDFSource` |
| `TrellisUtils.PrefixConstants` | core/api/src/main/java/org/trellisldp/api/TrellisUtils.java:54-69 | the scheme is `trellis:` and the data, blank-node and session prefixes are the scheme followed by `data/`, `bnode/` and `session/` |
| `TrellisUtils.LastIndexOf` | core/api/src/main/java/org/trellisldp/api/TrellisUtils.java:91 | the result is -1 or a position holding the character, with no occurrence after it |
| `TrellisUtils.GetContainer` | core/api/src/main/java/org/trellisldp/api/TrellisUtils.java:86-93 | no container exactly for the root; an exception exactly for identifiers shorter than the data prefix (lengths counted in characters, see "Left out"); otherwise the data prefix followed by the path with its last segment dropped |
| `TrellisUtils.DropsLastSegmentUnique` | core/api/src/main/java/org/trellisldp/api/TrellisUtils.java:90-92 | dropping the last segment has exactly one answer, so the contract of `GetContainer` determines its result |
| `TrellisUtils.ContainerIsStrictPrefix` | core/api/src/main/java/org/trellisldp/api/TrellisUtils.java:90-92 | below the root, the container exists, starts with the data prefix and is a strict prefix of the identifier |
| `TrellisUtils.ContainerOfTopLevelResource` | core/api/src/test/java/org/trellisldp/api/TrellisUtilsTest.java:78-81 | `trellis:data/resource` has the root `trellis:data/` as its container |
| `TrellisUtils.ContainerOfChildResource` | core/api/src/test/java/org/trellisldp/api/TrellisUtilsTest.java:79-82 | `trellis:data/resource/child` has `trellis:data/resource` as its container |
| `TrellisUtils.RootHasNoContainer` | core/api/src/test/java/org/trellisldp/api/TrellisUtilsTest.java:83 | the root has no container |
| `TrellisUtils.ContainerChain` | core/api/src/main/java/org/trellisldp/api/TrellisUtils.java:80-93 | repeated container derivation from any identifier under the root reaches the root, each step being `GetContainer` of the previous one, in at most path-length steps |
| `TrellisUtils.Supply` | core/api/src/main/java/org/trellisldp/api/TrellisUtils.java:118-121 | the supplier gives an empty dataset |
| `TrellisUtils.Accumulate` | core/api/src/main/java/org/trellisldp/api/TrellisUtils.java:123-126 | adding an element gives exactly the old elements and the new one; adding one already present changes nothing |
| `TrellisUtils.Combine` | core/api/src/main/java/org/trellisldp/api/TrellisUtils.java:128-134 | the combined dataset holds exactly the elements of either side; combining with a subset of the left side changes nothing |
| `TrellisUtils.Finish` | core/api/src/main/java/org/trellisldp/api/TrellisUtils.java:136-139 | the finisher keeps exactly the accumulated elements |
| `TrellisUtils.Collect` | core/api/src/main/java/org/trellisldp/api/TrellisUtils.java:116-139 | a collected stream holds exactly the stream's elements and never more elements than were fed in |
| `TrellisUtils.CollectSplit` | core/api/src/main/java/org/trellisldp/api/TrellisUtils.java:129-134 | collecting two halves and combining them equals collecting the whole, in either order of combination |
| `TrellisUtils.FinisherIsIdentity` | core/api/src/main/java/org/trellisldp/api/TrellisUtils.java:137-139 | the dataset finisher returns its argument |
| `TrellisUtils.ToGraph` | core/api/src/main/java/org/trellisldp/api/TrellisUtils.java:100-105 | the graph holds exactly the streamed triples and is no larger than the stream |
| `TrellisUtils.ToDataset` | core/api/src/main/java/org/trellisldp/api/TrellisUtils.java:112-114 | the dataset holds exactly the streamed quads and is no larger than the stream |
| `InteractionModels.SuperclassOf` | core/api/src/test/java/org/trellisldp/api/ConstraintServiceTest.java:50-53 | a superclass exactly for the LDP types below `ldp:Resource`, and it sits one level higher in the hierarchy |
| `InteractionModels.LdpResourceTypes` | core/api/src/test/java/org/trellisldp/api/ConstraintServiceTest.java:50-53 | empty exactly for an IRI outside the LDP hierarchy; otherwise starts with `ldp:Resource`, ends with the model itself, each element is the superclass of the next, and its length is the model's depth |
| `InteractionModels.LdpResourceTypesDistinct` | core/api/src/test/java/org/trellisldp/api/ConstraintServiceTest.java:96-100 | the closure has no duplicates: its length equals the size of its set |
| `InteractionModels.ResourceTypesOfResource` | core/api/src/test/java/org/trellisldp/api/ConstraintServiceTest.java:55-61 | `ldp:Resource` closes to exactly itself |
| `InteractionModels.ResourceTypesOfNonLdp` | core/api/src/test/java/org/trellisldp/api/ConstraintServiceTest.java:63-66 | `rdfs:label` closes to nothing |
| `InteractionModels.ResourceTypesOfSources` | core/api/src/test/java/org/trellisldp/api/ConstraintServiceTest.java:68-84 | RDFSource and NonRDFSource each close to `ldp:Resource` followed by themselves |
| `InteractionModels.ResourceTypesOfContainer` | core/api/src/test/java/org/trellisldp/api/ConstraintServiceTest.java:86-94 | Container closes to Resource, RDFSource, Container |
| `InteractionModels.ResourceTypesOfContainerKinds` | core/api/src/test/java/org/trellisldp/api/ConstraintServiceTest.java:96-127 | Basic, Direct and Indirect containers each close to Resource, RDFSource, Container and themselves: four distinct types |
| `InteractionModels.ConstrainedBy` | core/api/src/test/java/org/trellisldp/api/ConstraintServiceTest.java:129-138 | the two-argument overload returns exactly what the three-argument overload returns under `trellis:data/` |
| `InteractionModels.ConstrainedByDependsOnDataPrefixOnly` | core/api/src/test/java/org/trellisldp/api/ConstraintServiceTest.java:129-138 | two services that agree under `trellis:data/` agree on the two-argument overload |
| `JsonNamespaces.TextualFields` | components/namespaces/src/main/java/org/trellisldp/namespaces/JsonNamespaceService.java:106-111 | the map's keys are exactly the fields with textual values, each mapped to its text |
| `JsonNamespaces.Read` | components/namespaces/src/main/java/org/trellisldp/namespaces/JsonNamespaceService.java:99-118 | fails exactly for an unreadable file; a missing file gives the empty map; a non-empty result comes from an object, whose textual fields are exactly its entries |
| `JsonNamespaces.GetNamespaces` | components/namespaces/src/main/java/org/trellisldp/namespaces/JsonNamespaceService.java:70-73 | the view has exactly the forward map's prefixes and namespaces; in a valid registry every namespace it shows has a reverse entry |
| `JsonNamespaces.SetPrefix` | components/namespaces/src/main/java/org/trellisldp/namespaces/JsonNamespaceService.java:76-89 | accepted exactly when the namespace has no reverse entry; refusal changes nothing; acceptance binds prefix to namespace and namespace to prefix and changes no other key; reverse keys never shrink |
| `JsonNamespaces.SetPrefixPreservesValid` | components/namespaces/src/main/java/org/trellisldp/namespaces/JsonNamespaceService.java:80-86 | every namespace in use keeps a reverse entry across `setPrefix` |
| `JsonNamespaces.SetPrefixVisible` | components/namespaces/src/main/java/org/trellisldp/namespaces/JsonNamespaceService.java:70-88 | `getNamespaces` shows an accepted binding and is unchanged by a refused one |
| `JsonNamespaces.RebindKeepsOldNamespaceReserved` | components/namespaces/src/main/java/org/trellisldp/namespaces/JsonNamespaceService.java:80-86 | rebinding a prefix leaves its old namespace reverse-mapped, so any later attempt to give the old namespace a prefix is refused, even when no prefix maps to it any more |
| `JsonNamespaces.ApplyAllPreservesValid` | components/namespaces/src/main/java/org/trellisldp/namespaces/JsonNamespaceService.java:76-89 | over any series of `setPrefix` calls the registry stays valid and no reverse key is lost |
| `JsonNamespaces.Init` | components/namespaces/src/main/java/org/trellisldp/namespaces/JsonNamespaceService.java:91-97 | the forward map is the loaded map, or the defaults when it is empty; the reverse keys are exactly the namespaces in use, each mapped to a prefix bound to it |
| `JsonNamespaces.Open` | components/namespaces/src/main/java/org/trellisldp/namespaces/JsonNamespaceService.java:64-68 | construction fails exactly when the file is unreadable, or it yields nothing and the defaults are unreadable; otherwise the registry is valid and holds the file's entries or else the defaults |
| `Request.GetFirst` | core/http/src/main/java/org/trellisldp/http/core/TrellisRequest.java:91 | a value exactly when the name has at least one value, and then it is the first |
| `Request.PrincipalName` | core/http/src/main/java/org/trellisldp/http/core/TrellisRequest.java:217-225 | null exactly when there is no security context or it has no principal; otherwise the principal's name |
| `Request.Make` | core/http/src/main/java/org/trellisldp/http/core/TrellisRequest.java:67-83 | headers, parameters, media types, base URL and method are captured from the contexts; the path is the first `path` path parameter, null when there is none; a principal name exactly when a principal is present, and then it is that principal's name |
| `Request.MakeAnonymous` | core/http/src/main/java/org/trellisldp/http/core/TrellisRequest.java:56-58 | the three-argument constructor has no principal name |
| `Request.GetSlug` | core/http/src/main/java/org/trellisldp/http/core/TrellisRequest.java:99-105 | the parsed slug when it is present and non-empty; null when the parser gives null or the empty string |
| `Request.GetLink` | core/http/src/main/java/org/trellisldp/http/core/TrellisRequest.java:112-118 | null exactly when there is no Link header; otherwise the parse of its first value |
| `Request.GetContentType` | core/http/src/main/java/org/trellisldp/http/core/TrellisRequest.java:90-92 | null exactly when there is no Content-Type value; otherwise the first one |
| `Request.GetDatetime` | core/http/src/main/java/org/trellisldp/http/core/TrellisRequest.java:125-127 | the parse of null without an Accept-Datetime value, otherwise the parse of the first one |
| `Request.GetPrefer` | core/http/src/main/java/org/trellisldp/http/core/TrellisRequest.java:134-136 | the parse of null without a Prefer value, otherwise the parse of the first one |
| `Request.GetRange` | core/http/src/main/java/org/trellisldp/http/core/TrellisRequest.java:143-145 | the parse of null without a Range value, otherwise the parse of the first one |
| `Request.GetVersion` | core/http/src/main/java/org/trellisldp/http/core/TrellisRequest.java:161-163 | the parse of null without a `version` query parameter, otherwise the parse of its first value |
| `Request.GetExt` | core/http/src/main/java/org/trellisldp/http/core/TrellisRequest.java:170-172 | null exactly when there is no `ext` query parameter value; otherwise the first one |
| `Request.HeaderAccessorsReadFirstValueOnly` | core/http/src/main/java/org/trellisldp/http/core/TrellisRequest.java:90-145 | values after the first under any header change none of Content-Type, Slug, Link, Accept-Datetime, Prefer or Range |
| `Request.QueryAccessorsIgnoreHeaders` | core/http/src/main/java/org/trellisldp/http/core/TrellisRequest.java:161-172 | `ext` and `version` are unaffected by any change of headers |
| `Request.ExtIsNotAHeader` | core/http/src/main/java/org/trellisldp/http/core/TrellisRequest.java:170-172 | an `ext` header without an `ext` query parameter gives no `ext` value |

## Behaviour of the code worth noting

- `DeleteHandler.java:128-129` chains `emitEvent` onto the joined delete and add with `thenCompose`, so the request's stage completes only when the event's stage does, and a failed event stage fails the request. `emitEvent` is not part of this model: the event's completion is an input, which is always true if `emitEvent` swallows its own errors.
- `DeleteHandler.java:101` records the parent only when the resource has a container; otherwise the handler's parent is left as it was.

## Left out

- Asynchronous plumbing (`CompletableFuture`, `allOf`, `thenCompose`, `whenComplete`) is not modelled as concurrency. Each future's completion is a boolean input, and the log records calls in issue order. The source gives no ordering between the joined `delete` and `add`.
- `checkCache` and the ETag generator live in files that are not part of this model. They are the function fields `checkCache` and `etagOf`, and a failing check returns whatever error that function gives.
- `emitEvent`, `handleResourceReplacement` and `getAuditUpdateData` live in the base handlers, which are not part of this model. The replacement is logged as one effect with its two datasets, standing for every call `handleResourceReplacement` makes; how it persists the update audit data is not modelled. `getAuditUpdateData` is taken to depend on the resource identifier and the session, as the deletion audit does. The event's completion is an input: the source chains it with `thenCompose`, so its failure fails the request here.
- `auditService.deletion`, `skolemizeQuads` and the session are function fields or inputs. The audit quads are opaque values.
- `isAclRequest`, the base `getIdentifier` and `getInternalId` are in the base handler, which is not part of this model. An ACL request is taken to be one whose `ext` query parameter is `acl`. The base and internal identifiers are handler fields. The marker `?ext=acl` stands in for `HttpConstants.ACL_QUERY_PARAM`, which is not part of this model.
- Commons RDF datasets are sets. The scratch datasets are modelled as the sequence of quads added, in order. Logging a close stands for `closeDataset`, whose failure handling is not part of this model.
- Interaction-model vocabulary: `LDP.getSuperclassOf` is not part of this model. The superclass map comes from the test assertions, and the absent IRI is taken to have no superclass. IRIs use the published LDP, Trellis and Activity Streams vocabularies.
- `ConstraintService` itself is not part of this model. Only the default delegation that the test exercises is modelled.
- JSON parsing (Jackson) and file writing are left out. A file is modelled as absent, unreadable or a parsed tree. A failing `write` after `setPrefix` or `init` has updated the maps is not modelled. `ConcurrentHashMap` concurrency is not modelled either; the maps are plain maps.
- No Java string is null here, because Dafny strings never are: a `setPrefix` argument (`requireNonNull`), a principal whose `getName()` returns null (which Java maps to a null principal name), and a header or parameter whose first value is null (which `getFirst` returns as null) cannot arise. Absence is modelled only as a missing security context, principal, name or value.
- Header parsers (`Slug`, `Prefer`, `Range`, `AcceptDatetime`, `Version`, `Link.valueOf`) are not modelled. Each accessor takes its parser as a function parameter. Case-insensitive header-name matching by the web framework is not modelled either.
- `findFirst`/`ServiceLoader` and `getInstance` are left out: they are service loading, not logic.
- `GetContainer` applied to an identifier of at least 13 characters that does not start with `trellis:data/` replaces the first 13 characters with the data prefix, as the code does for identifiers of ASCII characters. No property beyond the general contract is claimed for such identifiers.
- TrellisUtils.GetContainer: lengths and positions count Unicode characters, while Java's `length`, `substring` and `lastIndexOf` count UTF-16 code units. The two agree on every identifier that starts with `trellis:data/` (the prefix is ASCII and `/` is never part of a surrogate pair), but not on others with characters outside the Basic Multilingual Plane: `x:` followed by six U+1F600 is 8 characters but 14 code units, so the model fails where Java returns the root `trellis:data/`.
- DeleteHandler.DeleteResource: the closes are attached to the stage that `handleDeletion` returns. A collaborator that throws while that stage is being built (the audit service, the skolemizer, the resource stream, `getAuditUpdateData`, or `delete`/`add` throwing instead of returning a failed stage) leaves both datasets open. Collaborators are total here, so this path is not modelled.
- DeleteHandler.AclDeletionIsReplacement: the absence of add and event calls is about the handler's own calls; whatever `handleResourceReplacement` does internally is folded into the one replacement effect.
