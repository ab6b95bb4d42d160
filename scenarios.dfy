/**
 * The integration scenarios of the support service, replayed on the model: the
 * user directory answers `teacher` 1, `other_teacher` 2, `dean` 3 and `admin` 4,
 * and each caller carries the single authority the scenario gives it.
 */
module SupportCoursScenarios {
  import opened Common
  import opened SupportCoursModel
  import opened SecurityModel
  import opened SupportCoursService
  import opened SupportCoursController

  const TeacherId := 1
  const OtherTeacherId := 2
  const DeanId := 3
  const AdminId := 4

  function TestDirectory(): (directory: Directory)
    ensures LookupUserId(directory, "teacher") == Some(TeacherId)
    ensures LookupUserId(directory, "other_teacher") == Some(OtherTeacherId)
    ensures LookupUserId(directory, "student").None?
  {
    map["teacher" := TeacherId, "other_teacher" := OtherTeacherId, "dean" := DeanId, "admin" := AdminId]
  }

  /** A caller authenticated with one authority and no id on its principal. */
  function MockUser(username: string, authority: string): (auth: Option<Authentication>)
    ensures HasAuthority(auth, authority) && IsAuthenticated(auth)
    ensures auth.Some? && auth.value.username == username && auth.value.authorities == [authority]
  {
    Some(Authentication(true, username, None, [authority]))
  }

  /**
   * A fresh store holding one support saved straight through the repository,
   * owned by `teacher` and with the given status, under the id it was given.
   */
  method StoreWithOneSupport(titre: string, fichierUrl: string, statut: Statut, today: Date)
    returns (service: SupportCoursServiceImpl, id: int)
    ensures fresh(service) && service.Valid()
    ensures id in service.table && service.table.Keys == {id}
    ensures service.table[id].titre == Some(titre)
    ensures service.table[id].enseignantId == Some(TeacherId)
    ensures service.table[id].statut == Some(statut)
  {
    service := new SupportCoursServiceImpl();
    var support := new SupportCours();
    support.titre := Some(titre);
    support.enseignantId := Some(TeacherId);
    support.statut := Some(statut);
    support.fichierUrl := Some(fichierUrl);
    assert SatisfiesNotNullColumns(WithCreateDefaults(support.Snapshot(), today));
    var saved := service.Persist(support, today);
    id := saved.value.id.value;
  }

  /** A teacher creates a support; it is theirs and keeps the given file. */
  method TeacherCreatesSupport(today: Date) returns (r: Response)
    ensures r.Created?
    ensures r.body.enseignantId == Some(TeacherId)
    ensures r.body.fichierUrl == Some("http://example.com/file.pdf")
    ensures r.body.statut == Some(Brouillon)
  {
    var service := new SupportCoursServiceImpl();
    var createDto := CreateSupportCoursDto(Some("Test Cours"), Some("Description"),
                                           Some("http://example.com/file.pdf"), None, None);
    r := CreateSupport(MockUser("teacher", RoleTeacher), TestDirectory(), service, createDto, today);
  }

  /** A student may not create a support, and nothing is stored. */
  method StudentCannotCreateSupport(today: Date) returns (r: Response, stored: Store)
    ensures r == Forbidden
    ensures stored == map[]
  {
    var service := new SupportCoursServiceImpl();
    var createDto := CreateSupportCoursDto(Some("Test Cours"), None,
                                           Some("http://example.com/file.pdf"), None, None);
    r := CreateSupport(MockUser("student", "ROLE_STUDENT"), TestDirectory(), service, createDto, today);
    stored := service.table;
  }

  /** The owning teacher submits a draft; it becomes pending and one event goes out. */
  method OwnerSubmitsSupport(today: Date) returns (r: Response, id: int, ghost published: seq<Event>)
    ensures r.OkResponse? && r.body.id == Some(id) && r.body.statut == Some(Soumis)
    ensures published == [Event(SubmittedKey, id)]
  {
    var service;
    service, id := StoreWithOneSupport("Draft", "http://test.url/draft.pdf", Brouillon, today);
    ghost var before := service.events;
    r := SubmitSupport(MockUser("teacher", RoleTeacher), TestDirectory(), service, id);
    published := service.events[|before|..];
  }

  /** Another teacher may not submit a support they do not own; it stays a draft. */
  method NonOwnerCannotSubmitSupport(today: Date) returns (r: Response, statut: Option<Statut>)
    ensures r == Forbidden
    ensures statut == Some(Brouillon)
  {
    var service, id := StoreWithOneSupport("Draft", "http://test.url/other_draft.pdf", Brouillon, today);
    r := SubmitSupport(MockUser("other_teacher", RoleTeacher), TestDirectory(), service, id);
    statut := service.table[id].statut;
  }

  /** The dean sees the one pending support. */
  method DeanSeesPendingSupports(today: Date) returns (r: Response, id: int)
    ensures r.Listing? && r.items.Keys == {id}
    ensures r.items[id].titre == Some("Pending Support")
  {
    var service;
    service, id := StoreWithOneSupport("Pending Support", "http://test.url/pending.pdf", Soumis, today);
    r := Read(PendingEndpoint, MockUser("dean", RoleDean), TestDirectory(), service);
  }

  /** A teacher may not list the pending supports. */
  method TeacherCannotSeePendingSupports() returns (r: Response)
    ensures r == Forbidden
  {
    var service := new SupportCoursServiceImpl();
    r := Read(PendingEndpoint, MockUser("teacher", RoleTeacher), TestDirectory(), service);
  }

  /** The dean validates a pending support with a remark; it is dated and published. */
  method DeanValidatesSupport(today: Date) returns (r: Response, id: int, ghost published: seq<Event>)
    ensures r.OkResponse? && r.body.id == Some(id) && r.body.statut == Some(Valide)
    ensures r.body.remarqueDoyen == Some("Looks good") && r.body.dateValidation == Some(today)
    ensures published == [Event(ValidatedKey, id)]
  {
    var service;
    service, id := StoreWithOneSupport("To Validate", "http://test.url/tovalidate.pdf", Soumis, today);
    ghost var before := service.events;
    r := ValidateSupport(MockUser("dean", RoleDean), TestDirectory(), service, id, Some("Looks good"), today);
    published := service.events[|before|..];
  }
}
