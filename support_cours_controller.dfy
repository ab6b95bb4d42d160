/**
 * `SupportCoursController`: the access rule of every endpoint, the read endpoints,
 * the row-to-DTO conversion, and the endpoints that call the status operations.
 */
module SupportCoursController {
  import opened Common
  import opened SupportCoursModel
  import opened SecurityModel
  import opened SupportCoursService
  import opened SupportSecurity

  /** The response body for one course material (`SupportCoursDto`). */
  datatype SupportCoursDto = SupportCoursDto(
    id: Option<int>,
    titre: Option<string>,
    description: Option<string>,
    fichierUrl: Option<string>,
    niveau: Option<Niveau>,
    matiere: Option<string>,
    enseignantId: Option<int>,
    dateDepot: Option<Date>,
    statut: Option<Statut>,
    dateValidation: Option<Date>,
    remarqueDoyen: Option<string>)

  /** The request body of the create endpoint (`CreateSupportCoursDto`). */
  datatype CreateSupportCoursDto = CreateSupportCoursDto(
    titre: Option<string>,
    description: Option<string>,
    fichierUrl: Option<string>,
    niveau: Option<Niveau>,
    matiere: Option<string>)

  /** What an endpoint answers: its HTTP outcome and body. */
  datatype Response =
    | OkResponse(body: SupportCoursDto)
    | Created(body: SupportCoursDto)
    | Listing(items: map<int, SupportCoursDto>)
    | NoContent
    | NotFound
    | Forbidden
    | Failed(error: ServiceError)   // an exception escaped the service

  /** `convertToDto`: nine fields are copied; level and subject are left empty. */
  function ConvertToDto(s: SupportRow): (d: SupportCoursDto)
    ensures d.niveau.None? && d.matiere.None?
    ensures d.id == s.id && d.titre == s.titre && d.description == s.description
    ensures d.fichierUrl == s.fichierUrl && d.enseignantId == s.enseignantId
    ensures d.dateDepot == s.dateDepot && d.statut == s.statut
    ensures d.dateValidation == s.dateValidation && d.remarqueDoyen == s.remarqueDoyen
  {
    SupportCoursDto(s.id, s.titre, s.description, s.fichierUrl, None, None,
                    s.enseignantId, s.dateDepot, s.statut, s.dateValidation, s.remarqueDoyen)
  }

  /** Reads a DTO's fields back into a row. */
  function RowOfDto(d: SupportCoursDto): SupportRow {
    SupportRow(d.id, d.titre, d.description, d.fichierUrl, d.niveau, d.matiere,
               d.enseignantId, d.dateDepot, d.statut, d.dateValidation, d.remarqueDoyen)
  }

  /** The conversion loses exactly the level and the subject, and nothing else. */
  lemma ConvertToDtoRoundTrip(s: SupportRow)
    ensures RowOfDto(ConvertToDto(s)) == s.(niveau := None, matiere := None)
  {
  }

  /** Two rows give the same DTO exactly when they agree outside level and subject. */
  lemma ConvertToDtoInjective(a: SupportRow, b: SupportRow)
    ensures ConvertToDto(a) == ConvertToDto(b) <==> a.(niveau := None, matiere := None) == b.(niveau := None, matiere := None)
  {
    if ConvertToDto(a) == ConvertToDto(b) {
      ConvertToDtoRoundTrip(a);
      ConvertToDtoRoundTrip(b);
    }
  }

  /** The controller's endpoints, with their path variables. */
  datatype Endpoint =
    | CreateEndpoint
    | ListAllEndpoint
    | GetByIdEndpoint(id: int)
    | ListByEnseignantEndpoint(enseignantId: int)
    | PendingEndpoint
    | SubmitEndpoint(id: int)
    | ValidateEndpoint(id: int)
    | RejectEndpoint(id: int)
    | DeleteEndpoint(id: int)

  /** The `@PreAuthorize` rule of each endpoint. */
  function Authorized(e: Endpoint, auth: Option<Authentication>, directory: Directory,
                      service: SupportCoursServiceImpl): (r: bool)
    reads service
    ensures e.CreateEndpoint? ==> (r <==> HasAuthority(auth, RoleTeacher))
    ensures e.ListAllEndpoint? || e.GetByIdEndpoint? ==> (r <==> IsAuthenticated(auth))
    ensures e.ListByEnseignantEndpoint? ==>
      (r <==> HasAuthority(auth, RoleAdmin)
              || (IsAuthenticated(auth) && LookupUserId(directory, auth.value.username) == Some(e.enseignantId)))
    ensures e.PendingEndpoint? || e.ValidateEndpoint? || e.RejectEndpoint? ==>
      (r <==> HasAuthority(auth, RoleDean) || HasAuthority(auth, RoleAdmin))
    ensures e.SubmitEndpoint? ==>
      (r <==> && HasAuthority(auth, RoleTeacher) && IsAuthenticated(auth) && e.id in service.table
              && LookupUserId(directory, auth.value.username).Some?
              && service.table[e.id].enseignantId == LookupUserId(directory, auth.value.username))
    ensures e.DeleteEndpoint? ==>
      (r <==> || HasAuthority(auth, RoleAdmin)
              || (&& IsAuthenticated(auth) && e.id in service.table
                  && LookupUserId(directory, auth.value.username).Some?
                  && service.table[e.id].enseignantId == LookupUserId(directory, auth.value.username)))
  {
    match e
    case CreateEndpoint => HasAuthority(auth, RoleTeacher)
    case ListAllEndpoint => IsAuthenticated(auth)
    case GetByIdEndpoint(_) => IsAuthenticated(auth)
    case ListByEnseignantEndpoint(enseignantId) =>
      IsUser(auth, enseignantId, directory) || HasAuthority(auth, RoleAdmin)
    case PendingEndpoint => HasAuthority(auth, RoleDean) || HasAuthority(auth, RoleAdmin)
    case SubmitEndpoint(id) => IsOwner(auth, id, directory, service) && HasAuthority(auth, RoleTeacher)
    case ValidateEndpoint(_) => HasAuthority(auth, RoleDean) || HasAuthority(auth, RoleAdmin)
    case RejectEndpoint(_) => HasAuthority(auth, RoleDean) || HasAuthority(auth, RoleAdmin)
    case DeleteEndpoint(id) => IsOwner(auth, id, directory, service) || HasAuthority(auth, RoleAdmin)
  }

  /** An administrator who does not own a support may not submit it. */
  lemma AdminNonOwnerCannotSubmit(auth: Option<Authentication>, id: int, directory: Directory,
                                  service: SupportCoursServiceImpl)
    requires HasAuthority(auth, RoleAdmin) && !IsOwner(auth, id, directory, service)
    ensures !Authorized(SubmitEndpoint(id), auth, directory, service)
    ensures Authorized(DeleteEndpoint(id), auth, directory, service)
  {
  }

  /** Whoever may submit a support may also delete it. */
  lemma SubmitRightImpliesDeleteRight(auth: Option<Authentication>, id: int, directory: Directory,
                                      service: SupportCoursServiceImpl)
    requires Authorized(SubmitEndpoint(id), auth, directory, service)
    ensures Authorized(DeleteEndpoint(id), auth, directory, service)
  {
  }

  /**
   * No rule looks at a status, a date or a remark: two stores with the same ids
   * and teachers authorize exactly the same requests.
   */
  lemma AuthorizationIgnoresStatus(e: Endpoint, auth: Option<Authentication>, directory: Directory,
                                   s1: SupportCoursServiceImpl, s2: SupportCoursServiceImpl)
    requires s1.table.Keys == s2.table.Keys
    requires forall k :: k in s1.table ==> s1.table[k].enseignantId == s2.table[k].enseignantId
    ensures Authorized(e, auth, directory, s1) == Authorized(e, auth, directory, s2)
  {
    match e
    case SubmitEndpoint(id) => IsOwnerDependsOnlyOnTeachers(auth, id, directory, s1, s2);
    case DeleteEndpoint(id) => IsOwnerDependsOnlyOnTeachers(auth, id, directory, s1, s2);
    case _ =>
  }

  /** The four read endpoints: the listings and get-by-id, each behind its rule. */
  function Read(e: Endpoint, auth: Option<Authentication>, directory: Directory,
                service: SupportCoursServiceImpl): (r: Response)
    requires e.ListAllEndpoint? || e.GetByIdEndpoint? || e.ListByEnseignantEndpoint? || e.PendingEndpoint?
    reads service
    ensures !Authorized(e, auth, directory, service) ==> r == Forbidden
    ensures Authorized(e, auth, directory, service) && e.GetByIdEndpoint? ==>
      r == if e.id in service.table then OkResponse(ConvertToDto(service.table[e.id])) else NotFound
    ensures Authorized(e, auth, directory, service) && !e.GetByIdEndpoint? ==>
      && r.Listing?
      && (forall k :: k in r.items ==> k in service.table && r.items[k] == ConvertToDto(service.table[k]))
      && (e.ListAllEndpoint? ==> r.items.Keys == service.table.Keys)
      && (e.PendingEndpoint? ==>
            forall k :: k in r.items <==> k in service.table && service.table[k].statut == Some(Soumis))
      && (e.ListByEnseignantEndpoint? ==>
            forall k :: k in r.items <==> k in service.table && service.table[k].enseignantId == Some(e.enseignantId))
  {
    if !Authorized(e, auth, directory, service) then
      Forbidden
    else
      match e
      case GetByIdEndpoint(id) =>
        (match service.GetSupportById(id)
         case Some(support) => OkResponse(ConvertToDto(support))
         case None => NotFound)
      case ListAllEndpoint =>
        Listing(map k | k in service.table :: ConvertToDto(service.table[k]))
      case ListByEnseignantEndpoint(enseignantId) =>
        var rows := service.GetSupportsByEnseignant(enseignantId);
        Listing(map k | k in rows :: ConvertToDto(rows[k]))
      case PendingEndpoint =>
        var rows := service.GetSupportsByStatut(Soumis);
        Listing(map k | k in rows :: ConvertToDto(rows[k]))
  }

  /** The create endpoint: a teacher creates a draft; level and subject of the request are dropped. */
  method CreateSupport(auth: Option<Authentication>, directory: Directory, service: SupportCoursServiceImpl,
                       createDto: CreateSupportCoursDto, today: Date) returns (r: Response)
    requires service.Valid()
    modifies service
    ensures service.Valid() && service.events == old(service.events)
    ensures !HasAuthority(auth, RoleTeacher) ==> r == Forbidden && service.table == old(service.table)
    ensures r.Created? ==>
      && HasAuthority(auth, RoleTeacher)
      && LookupUserId(directory, auth.value.username).Some?
      && r.body.enseignantId == LookupUserId(directory, auth.value.username)
      && r.body.titre == createDto.titre && r.body.fichierUrl == createDto.fichierUrl
      && r.body.description == createDto.description
      && r.body.statut == Some(Brouillon) && r.body.dateDepot == Some(today)
      && r.body.id == Some(old(service.nextId))
      && service.table == old(service.table)[old(service.nextId) := RowOfDto(r.body)]
    ensures HasAuthority(auth, RoleTeacher) ==>
      (r.Created? <==> LookupUserId(directory, auth.value.username).Some?
                       && createDto.titre.Some? && createDto.fichierUrl.Some?)
    ensures HasAuthority(auth, RoleTeacher) && !r.Created? ==>
      r == Failed(if LookupUserId(directory, auth.value.username).None? then UserIdNotFound else NotNullViolation)
    ensures !r.Created? ==> service.table == old(service.table)
  {
    if !HasAuthority(auth, RoleTeacher) {
      return Forbidden;
    }
    var created := service.CreateSupport(auth.value.username, directory,
                                         createDto.titre, createDto.description, createDto.fichierUrl, today);
    match created
    case Ok(support) =>
      r := Created(ConvertToDto(support));
    case Err(error) =>
      r := Failed(error);
  }

  /** The submit endpoint: only the owning teacher gets through, and then it always succeeds. */
  method SubmitSupport(auth: Option<Authentication>, directory: Directory, service: SupportCoursServiceImpl,
                       id: int) returns (r: Response)
    requires service.Valid()
    modifies service
    ensures service.Valid()
    ensures !old(Authorized(SubmitEndpoint(id), auth, directory, service)) ==>
      r == Forbidden && service.table == old(service.table) && service.events == old(service.events)
    ensures old(Authorized(SubmitEndpoint(id), auth, directory, service)) ==>
      && id in old(service.table)
      && r == OkResponse(ConvertToDto(Submitted(old(service.table)[id])))
      && service.table == Apply(old(service.table), Submit(id))
      && service.events == old(service.events) + [Event(SubmittedKey, id)]
  {
    if !Authorized(SubmitEndpoint(id), auth, directory, service) {
      return Forbidden;
    }
    var submitted := service.SubmitSupport(id);
    match submitted
    case Ok(support) =>
      r := OkResponse(ConvertToDto(support));
    case Err(error) =>
      r := Failed(error);
  }

  /** The validate endpoint: deans and administrators; the remark may be absent. */
  method ValidateSupport(auth: Option<Authentication>, directory: Directory, service: SupportCoursServiceImpl,
                         id: int, remarque: Option<string>, today: Date) returns (r: Response)
    requires service.Valid()
    modifies service
    ensures service.Valid()
    ensures !(HasAuthority(auth, RoleDean) || HasAuthority(auth, RoleAdmin)) ==>
      r == Forbidden && service.table == old(service.table) && service.events == old(service.events)
    ensures HasAuthority(auth, RoleDean) || HasAuthority(auth, RoleAdmin) ==>
      && service.table == Apply(old(service.table), Validate(id, remarque, today))
      && service.events == old(service.events) + Published(old(service.table), Validate(id, remarque, today))
      && r == if id in old(service.table) then OkResponse(ConvertToDto(Validated(old(service.table)[id], today, remarque)))
              else Failed(SupportNotFound)
  {
    if !Authorized(ValidateEndpoint(id), auth, directory, service) {
      return Forbidden;
    }
    var validated := service.ValidateSupport(id, remarque, today);
    match validated
    case Ok(support) =>
      r := OkResponse(ConvertToDto(support));
    case Err(error) =>
      r := Failed(error);
  }

  /** The reject endpoint: deans and administrators; the remark is a required body. */
  method RejectSupport(auth: Option<Authentication>, directory: Directory, service: SupportCoursServiceImpl,
                       id: int, remarque: string) returns (r: Response)
    requires service.Valid()
    modifies service
    ensures service.Valid()
    ensures !(HasAuthority(auth, RoleDean) || HasAuthority(auth, RoleAdmin)) ==>
      r == Forbidden && service.table == old(service.table) && service.events == old(service.events)
    ensures HasAuthority(auth, RoleDean) || HasAuthority(auth, RoleAdmin) ==>
      && service.table == Apply(old(service.table), Reject(id, Some(remarque)))
      && service.events == old(service.events) + Published(old(service.table), Reject(id, Some(remarque)))
      && r == if id in old(service.table) then OkResponse(ConvertToDto(Rejected(old(service.table)[id], Some(remarque))))
              else Failed(SupportNotFound)
  {
    if !Authorized(RejectEndpoint(id), auth, directory, service) {
      return Forbidden;
    }
    var rejected := service.RejectSupport(id, Some(remarque));
    match rejected
    case Ok(support) =>
      r := OkResponse(ConvertToDto(support));
    case Err(error) =>
      r := Failed(error);
  }

  /** The delete endpoint: the owner or an administrator, whatever the status. */
  method DeleteSupport(auth: Option<Authentication>, directory: Directory, service: SupportCoursServiceImpl,
                       id: int) returns (r: Response)
    requires service.Valid()
    modifies service
    ensures service.Valid() && service.events == old(service.events)
    ensures !old(Authorized(DeleteEndpoint(id), auth, directory, service)) ==>
      r == Forbidden && service.table == old(service.table)
    ensures old(Authorized(DeleteEndpoint(id), auth, directory, service)) ==>
      r == NoContent && service.table == old(service.table) - {id}
  {
    if !Authorized(DeleteEndpoint(id), auth, directory, service) {
      return Forbidden;
    }
    service.DeleteSupport(id);
    r := NoContent;
  }
}
