/**
 * The DELETE handler as a state machine: `Initialize` sorts the looked-up resource into one
 * outcome (404, 410, 400, a conditional-request failure, or 204), and `DeleteResource` performs
 * either the ACL branch (a replacement that keeps the user-managed quads, with update audit data)
 * or the full deletion (delete plus audit add, joined, then a Delete event). Calls into the
 * persistence, audit and event services are recorded in an effect log; the completion of each
 * asynchronous call is an input.
 */
module DeleteHandler {
  import opened Wrappers
  import opened Rdf
  import opened Vocabulary
  import opened Request

  /** A resource as the persistence service returns it; `quads` is its full stream, in order. */
  datatype Resource = Resource(
    identifier: string,
    interactionModel: string,
    modified: int,
    container: Option<string>,
    binaryMetadata: Option<string>,
    quads: seq<Quad>)

  /** A lookup yields one of the two sentinel resources or a real resource. */
  datatype Lookup = Missing | Deleted | Found(resource: Resource)

  /** The descriptor built from a resource for a persistence request. */
  datatype Metadata = Metadata(
    identifier: string,
    interactionModel: string,
    container: Option<string>,
    binaryMetadata: Option<string>)

  /** `Metadata.builder(resource).build()`. */
  function MetadataOf(r: Resource): (m: Metadata)
    ensures m.identifier == r.identifier && m.interactionModel == r.interactionModel
    ensures m.container == r.container && m.binaryMetadata == r.binaryMetadata
  {
    Metadata(r.identifier, r.interactionModel, r.container, r.binaryMetadata)
  }

  /** The client errors the handler raises, and the failure of a backend future. */
  datatype HttpError =
    | NotFound
    | Gone
    | BadRequest(linkTarget: string, linkRel: string, entity: string)
    | ConditionFailed(status: int)
    | BackendFailure

  /** The response builder the handler hands on: no content (204). */
  datatype Response = NoContent

  /** The two scratch datasets of a deletion. */
  datatype ScratchDataset = Mutable | Immutable

  /** One call from the handler to a collaborator. */
  datatype Effect =
    | Replacement(mutable: seq<Quad>, immutable: seq<Quad>)
    | Delete(metadata: Metadata)
    | Add(identifier: string, dataset: seq<Quad>)
    | Emit(target: string, activity: string, interactionModel: string)
    | Close(scratch: ScratchDataset)

  /** How each asynchronous call completes: true for normal completion, false for failure. */
  datatype Outcomes = Outcomes(replaceOk: bool, deleteOk: bool, addOk: bool, emitOk: bool)

  /** The collaborators the handler consults, each a function whose definition lies outside the handler. */
  datatype Services = Services(
    supportedModels: set<string>,
    etagOf: Resource -> string,
    checkCache: (int, string) -> Option<HttpError>,
    auditDeletion: (string, string) -> seq<Quad>,
    auditUpdate: (string, string) -> seq<Quad>,
    skolemize: Quad -> Quad)

  /**
   * The handler's per-request context: the request, the identifier and internal identifier the
   * base handler computes, the session, and the resource and parent recorded by `Initialize`.
   */
  datatype Handler = Handler(
    request: TrellisRequest,
    baseIdentifier: string,
    internalId: string,
    session: string,
    resource: Option<Resource>,
    parent: Option<Lookup>)

  /** A finished request: the response or error, and every collaborator call made, in order. */
  datatype Completion = Completion(result: Result<Response, HttpError>, log: seq<Effect>)

  /** The query-parameter marker appended to the identifier of an ACL request. */
  const AclQueryParam: string := "?ext=acl"

  /** An ACL request is one whose `ext` query parameter is `acl`. */
  predicate IsAclRequest(req: TrellisRequest): (acl: bool)
    ensures acl <==> ExtParameter in req.parameters && req.parameters[ExtParameter] != [] && req.parameters[ExtParameter][0] == "acl"
  {
    GetExt(req) == Some("acl")
  }

  /** `getIdentifier`: the base identifier, with the ACL marker appended for an ACL request. */
  function GetIdentifier(h: Handler): (id: string)
    ensures id == h.baseIdentifier + AclQueryParam <==> IsAclRequest(h.request)
    ensures h.baseIdentifier <= id
    ensures !IsAclRequest(h.request) ==> id == h.baseIdentifier
  {
    h.baseIdentifier + (if IsAclRequest(h.request) then AclQueryParam else "")
  }

  /**
   * `initialize`: the checks run in order (missing, deleted, support for `ldp:Resource`, the cache
   * check); only when all pass is the resource recorded, the parent recorded when the resource has
   * a container, and a no-content builder returned.
   */
  function Initialize(h: Handler, parent: Lookup, lookup: Lookup, svc: Services): (r: Result<(Handler, Response), HttpError>)
    ensures lookup.Missing? ==> r == Failure(NotFound)
    ensures lookup.Deleted? ==> r == Failure(Gone)
    ensures lookup.Found? && LdpResource !in svc.supportedModels ==>
      r == Failure(BadRequest(UnsupportedInteractionModel, LdpConstrainedBy, "Unsupported interaction model provided"))
    ensures lookup.Found? && LdpResource in svc.supportedModels ==>
      var res := lookup.resource;
      match svc.checkCache(res.modified, svc.etagOf(res))
      case Some(e) => r == Failure(e)
      case None => r.Success?
    ensures r.Success? ==>
      && lookup.Found?
      && r.value.0.resource == Some(lookup.resource)
      && r.value.0.parent == (if lookup.resource.container.Some? then Some(parent) else h.parent)
      && r.value.0.(resource := h.resource, parent := h.parent) == h
      && r.value.1 == NoContent
  {
    match lookup
    case Missing => Failure(NotFound)
    case Deleted => Failure(Gone)
    case Found(res) =>
      if LdpResource !in svc.supportedModels then
        Failure(BadRequest(UnsupportedInteractionModel, LdpConstrainedBy, "Unsupported interaction model provided"))
      else
        match svc.checkCache(res.modified, svc.etagOf(res))
        case Some(e) => Failure(e)
        case None =>
          var recorded := h.(resource := Some(res));
          var withParent := if res.container.Some? then recorded.(parent := Some(parent)) else recorded;
          Success((withParent, NoContent))
  }

  /** `stream(PreferUserManaged)`: the quads in the user-managed graph, in stream order. */
  function UserManaged(quads: seq<Quad>): (um: seq<Quad>)
    ensures forall q :: q in um <==> q in quads && q.graphName == Some(Iri(PreferUserManaged))
    ensures |um| <= |quads|
  {
    if |quads| == 0 then []
    else
      var rest := UserManaged(quads[..|quads| - 1]);
      var last := quads[|quads| - 1];
      if last.graphName == Some(Iri(PreferUserManaged)) then rest + [last] else rest
  }

  /** Filtering keeps order: the user-managed quads of a concatenation are those of each part, in turn. */
  lemma {:induction false} UserManagedDistributes(a: seq<Quad>, b: seq<Quad>)
    ensures UserManaged(a + b) == UserManaged(a) + UserManaged(b)
    decreases |b|
  {
    if |b| == 0 {
      assert a + b == a;
    } else {
      var b' := b[..|b| - 1];
      assert (a + b)[..|a + b| - 1] == a + b';
      UserManagedDistributes(a, b');
    }
  }

  /** The deletion audit quads, each skolemized: what goes into the immutable dataset. */
  function SkolemizedDeletionAudit(h: Handler, r: Resource, svc: Services): (quads: seq<Quad>)
    ensures |quads| == |svc.auditDeletion(r.identifier, h.session)|
    ensures forall i | 0 <= i < |quads| :: quads[i] == svc.skolemize(svc.auditDeletion(r.identifier, h.session)[i])
  {
    var audit := svc.auditDeletion(r.identifier, h.session);
    seq(|audit|, i requires 0 <= i < |audit| => svc.skolemize(audit[i]))
  }

  /** The body of the deletion chain: whether it completes normally, and the calls it makes. */
  datatype Step = Step(ok: bool, log: seq<Effect>)

  /** `handleAclDeletion`: keep the user-managed quads, collect update audit data, replace. */
  function HandleAclDeletion(h: Handler, r: Resource, svc: Services, out: Outcomes): (s: Step)
    ensures |s.log| == 1 && s.log[0].Replacement?
    ensures forall q :: q in s.log[0].mutable <==> q in r.quads && q.graphName == Some(Iri(PreferUserManaged))
    ensures s.log[0].immutable == svc.auditUpdate(r.identifier, h.session)
    ensures s.ok <==> out.replaceOk
  {
    Step(out.replaceOk, [Replacement(UserManaged(r.quads), svc.auditUpdate(r.identifier, h.session))])
  }

  /** `handleResourceDeletion` then the Delete event: delete and add, joined; the event only after both succeed. */
  function HandleResourceDeletion(h: Handler, r: Resource, svc: Services, out: Outcomes): (s: Step)
    ensures |s.log| == (if out.deleteOk && out.addOk then 3 else 2)
    ensures s.log[0] == Delete(MetadataOf(r)) && s.log[1] == Add(r.identifier, SkolemizedDeletionAudit(h, r, svc))
    ensures |s.log| == 3 ==> s.log[2] == Emit(h.internalId, AsDelete, r.interactionModel)
    ensures s.ok <==> out.deleteOk && out.addOk && out.emitOk
  {
    var joined := [Delete(MetadataOf(r)), Add(r.identifier, SkolemizedDeletionAudit(h, r, svc))];
    if out.deleteOk && out.addOk then
      Step(out.emitOk, joined + [Emit(h.internalId, AsDelete, r.interactionModel)])
    else
      Step(false, joined)
  }

  /** `deleteResource`: run the branch, hand on the builder, then close the immutable and the mutable dataset. */
  function DeleteResource(h: Handler, builder: Response, svc: Services, out: Outcomes): (c: Completion)
    requires h.resource.Some?
    ensures |c.log| >= 2 && c.log[|c.log| - 2..] == [Close(Immutable), Close(Mutable)]
    ensures forall i | 0 <= i < |c.log| - 2 :: !c.log[i].Close?
    ensures c.result.Success? ==> c.result.value == builder
    ensures c.result.Failure? ==> c.result.error == BackendFailure
  {
    var r := h.resource.value;
    var step := if IsAclRequest(h.request) then HandleAclDeletion(h, r, svc, out) else HandleResourceDeletion(h, r, svc, out);
    Completion(if step.ok then Success(builder) else Failure(BackendFailure), step.log + [Close(Immutable), Close(Mutable)])
  }

  /** A DELETE request end to end: `Initialize`, and on success `DeleteResource`. */
  function HandleDelete(h: Handler, parent: Lookup, lookup: Lookup, svc: Services, out: Outcomes): (c: Completion)
    ensures Initialize(h, parent, lookup, svc).Failure? ==> c == Completion(Failure(Initialize(h, parent, lookup, svc).error), [])
    ensures Initialize(h, parent, lookup, svc).Success? ==>
      c == DeleteResource(Initialize(h, parent, lookup, svc).value.0, NoContent, svc, out)
  {
    match Initialize(h, parent, lookup, svc)
    case Failure(e) => Completion(Failure(e), [])
    case Success(ready) => DeleteResource(ready.0, ready.1, svc, out)
  }

  // Counting calls in a log.

  predicate IsReplacement(e: Effect) { e.Replacement? }
  predicate IsDelete(e: Effect) { e.Delete? }
  predicate IsAdd(e: Effect) { e.Add? }
  predicate IsEmit(e: Effect) { e.Emit? }
  predicate IsMutation(e: Effect) { e.Replacement? || e.Delete? || e.Add? }

  /** How many calls in the log satisfy `p`. */
  function Count(log: seq<Effect>, p: Effect -> bool): (n: nat)
    ensures n <= |log|
    ensures n == 0 <==> forall i | 0 <= i < |log| :: !p(log[i])
  {
    if |log| == 0 then 0
    else Count(log[..|log| - 1], p) + (if p(log[|log| - 1]) then 1 else 0)
  }

  /** Counts over a concatenated log add up. */
  lemma {:induction false} CountAppend(a: seq<Effect>, b: seq<Effect>, p: Effect -> bool)
    ensures Count(a + b, p) == Count(a, p) + Count(b, p)
    decreases |b|
  {
    if |b| == 0 {
      assert a + b == a;
    } else {
      assert (a + b)[..|a + b| - 1] == a + b[..|b| - 1];
      CountAppend(a, b[..|b| - 1], p);
    }
  }

  /** Counting a one-call log. */
  lemma CountSingle(e: Effect, p: Effect -> bool)
    ensures Count([e], p) == if p(e) then 1 else 0
  {
  }

  /**
   * A request rejected by `Initialize` (missing, deleted, unsupported model, failed cache check)
   * makes no collaborator call at all; in particular a missing resource gives 404 and a deleted
   * one 410 with an empty log.
   */
  lemma RejectedRequestHasNoEffects(h: Handler, parent: Lookup, lookup: Lookup, svc: Services, out: Outcomes)
    ensures lookup.Missing? ==> HandleDelete(h, parent, lookup, svc, out) == Completion(Failure(NotFound), [])
    ensures lookup.Deleted? ==> HandleDelete(h, parent, lookup, svc, out) == Completion(Failure(Gone), [])
    ensures Initialize(h, parent, lookup, svc).Failure? ==> HandleDelete(h, parent, lookup, svc, out).log == []
    ensures Count(HandleDelete(h, parent, lookup, svc, out).log, IsMutation) > 0 ==>
      && lookup.Found?
      && LdpResource in svc.supportedModels
      && svc.checkCache(lookup.resource.modified, svc.etagOf(lookup.resource)).None?
  {
  }

  /**
   * The handler itself issues no delete, add or event in the ACL branch besides the replacement
   * (which stands for every call `handleResourceReplacement` makes): one replacement whose mutable dataset
   * holds exactly the resource's user-managed quads, in order, and whose immutable dataset holds
   * the update audit data; the request succeeds exactly when the replacement does.
   */
  lemma AclDeletionIsReplacement(h: Handler, svc: Services, out: Outcomes)
    requires h.resource.Some? && IsAclRequest(h.request)
    ensures var c := DeleteResource(h, NoContent, svc, out);
      var r := h.resource.value;
      && Count(c.log, IsDelete) == 0 && Count(c.log, IsAdd) == 0 && Count(c.log, IsEmit) == 0
      && Count(c.log, IsReplacement) == 1
      && c.log[0] == Replacement(UserManaged(r.quads), svc.auditUpdate(r.identifier, h.session))
      && (c.result == Success(NoContent) <==> out.replaceOk)
  {
  }

  /** The calls of the full deletion, in order: the joined pair, the event only when both succeed, the two closes. */
  lemma FullDeletionLog(h: Handler, svc: Services, out: Outcomes)
    requires h.resource.Some? && !IsAclRequest(h.request)
    ensures var r := h.resource.value;
      var emitted := if out.deleteOk && out.addOk then [Emit(h.internalId, AsDelete, r.interactionModel)] else [];
      DeleteResource(h, NoContent, svc, out) == Completion(
        if out.deleteOk && out.addOk && out.emitOk then Success(NoContent) else Failure(BackendFailure),
        [Delete(MetadataOf(r)), Add(r.identifier, SkolemizedDeletionAudit(h, r, svc))] + emitted + [Close(Immutable), Close(Mutable)])
  {
  }

  /**
   * The full deletion makes exactly one delete (of the resource's metadata) and one add (of the
   * skolemized deletion audit under the resource identifier) and no replacement; the Delete event,
   * carrying the resource's interaction model, is emitted exactly when both succeed; the request
   * succeeds exactly when delete, add and event all succeed.
   */
  lemma FullDeletionJoinsDeleteAndAdd(h: Handler, svc: Services, out: Outcomes)
    requires h.resource.Some? && !IsAclRequest(h.request)
    ensures var c := DeleteResource(h, NoContent, svc, out);
      var r := h.resource.value;
      && Count(c.log, IsDelete) == 1 && Delete(MetadataOf(r)) in c.log
      && Count(c.log, IsAdd) == 1 && Add(r.identifier, SkolemizedDeletionAudit(h, r, svc)) in c.log
      && Count(c.log, IsReplacement) == 0
      && Count(c.log, IsEmit) == (if out.deleteOk && out.addOk then 1 else 0)
      && (Emit(h.internalId, AsDelete, r.interactionModel) in c.log <==> out.deleteOk && out.addOk)
      && (c.result == Success(NoContent) <==> out.deleteOk && out.addOk && out.emitOk)
  {
    var r := h.resource.value;
    var e := Emit(h.internalId, AsDelete, r.interactionModel);
    FullDeletionLog(h, svc, out);
    DeletionLogCounts(Delete(MetadataOf(r)), Add(r.identifier, SkolemizedDeletionAudit(h, r, svc)), e,
      if out.deleteOk && out.addOk then [e] else []);
  }

  /** In the full deletion, the event comes after every mutating call. */
  lemma FullDeletionEventAfterJoin(h: Handler, svc: Services, out: Outcomes)
    requires h.resource.Some? && !IsAclRequest(h.request)
    ensures var log := DeleteResource(h, NoContent, svc, out).log;
      forall i, j | 0 <= i < |log| && 0 <= j < |log| && log[i].Emit? && IsMutation(log[j]) :: j < i
  {
  }

  /** Call counts of a full-deletion log: the joined pair, the event if any, and the two closes. */
  lemma DeletionLogCounts(d: Effect, a: Effect, e: Effect, emitted: seq<Effect>)
    requires d.Delete? && a.Add? && e.Emit? && (emitted == [] || emitted == [e])
    ensures var log := [d, a] + emitted + [Close(Immutable), Close(Mutable)];
      && Count(log, IsDelete) == 1 && Count(log, IsAdd) == 1 && Count(log, IsReplacement) == 0
      && Count(log, IsEmit) == |emitted|
  {
    var closes := [Close(Immutable), Close(Mutable)];
    var log := [d, a] + emitted + closes;
    assert [d, a] == [d] + [a];
    CountAppend([d, a] + emitted, closes, IsDelete);
    CountAppend([d, a], emitted, IsDelete);
    CountAppend([d], [a], IsDelete);
    CountAppend([d, a] + emitted, closes, IsAdd);
    CountAppend([d, a], emitted, IsAdd);
    CountAppend([d], [a], IsAdd);
    CountAppend([d, a] + emitted, closes, IsReplacement);
    CountAppend([d, a], emitted, IsReplacement);
    CountAppend([d], [a], IsReplacement);
    CountAppend([d, a] + emitted, closes, IsEmit);
    CountAppend([d, a], emitted, IsEmit);
    CountAppend([d], [a], IsEmit);
    CountSingle(d, IsDelete);
    CountSingle(a, IsAdd);
    CountSingle(e, IsEmit);
  }

  /**
   * The successful-deletion scenario: an RDF source, not an ACL request, every check passing and
   * every call succeeding gives 204 with one delete, one add and one Delete event for `ldp:RDFSource`.
   */
  lemma SuccessfulDeleteScenario(h: Handler, parent: Lookup, r: Resource, svc: Services)
    requires r.interactionModel == LdpRDFSource && !IsAclRequest(h.request)
    requires LdpResource in svc.supportedModels && svc.checkCache(r.modified, svc.etagOf(r)).None?
    ensures var c := HandleDelete(h, parent, Found(r), svc, Outcomes(true, true, true, true));
      && c.result == Success(NoContent)
      && Count(c.log, IsDelete) == 1 && Count(c.log, IsAdd) == 1
      && Count(c.log, IsEmit) == 1
      && Emit(h.internalId, AsDelete, LdpRDFSource) in c.log
  {
    var ready := Initialize(h, parent, Found(r), svc).value;
    FullDeletionJoinsDeleteAndAdd(ready.0, svc, Outcomes(true, true, true, true));
  }
}
