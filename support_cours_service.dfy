/**
 * `SupportCoursServiceImpl`: the course-material store and its status operations.
 * The repository table is a map from generated id to row, the broker is a ghost
 * log of published events, and "today" is a parameter.
 */
module SupportCoursService {
  import opened Common
  import opened SupportCoursModel
  import opened SecurityModel

  /** The repository table: rows keyed by their generated id. */
  type Store = map<int, SupportRow>

  /** The exceptions the service lets escape. */
  datatype ServiceError =
    | SupportNotFound    // findById found nothing
    | UserIdNotFound     // the username lookup came back null
    | NotNullViolation   // the database refused a null in a not-null column

  datatype Result<+T> = Ok(value: T) | Err(error: ServiceError)

  /** One message handed to the broker: its routing key and the support's id. */
  datatype Event = Event(routingKey: string, supportId: int)

  const SubmittedKey := "support.submitted"
  const ValidatedKey := "support.validated"
  const RejectedKey := "support.rejected"

  /** Every row is stored under its own id and fills the not-null columns. */
  ghost predicate WellFormedStore(t: Store) {
    forall k :: k in t ==> t[k].id == Some(k) && SatisfiesNotNullColumns(t[k])
  }

  /** `submitSupport`'s change to a row: the status becomes `Soumis` whatever it was. */
  function Submitted(r: SupportRow): (s: SupportRow)
    ensures s.statut == Some(Soumis)
    ensures s.(statut := r.statut) == r
  {
    r.(statut := Some(Soumis))
  }

  /** `validateSupport`'s change to a row: status, validation date and dean's remark. */
  function Validated(r: SupportRow, today: Date, remarque: Option<string>): (s: SupportRow)
    ensures s.statut == Some(Valide) && s.dateValidation == Some(today) && s.remarqueDoyen == remarque
    ensures s.(statut := r.statut, dateValidation := r.dateValidation, remarqueDoyen := r.remarqueDoyen) == r
  {
    r.(statut := Some(Valide), dateValidation := Some(today), remarqueDoyen := remarque)
  }

  /** `rejectSupport`'s change to a row: status and remark; the validation date is kept. */
  function Rejected(r: SupportRow, remarque: Option<string>): (s: SupportRow)
    ensures s.statut == Some(Rejete) && s.remarqueDoyen == remarque
    ensures s.dateValidation == r.dateValidation
    ensures s.(statut := r.statut, remarqueDoyen := r.remarqueDoyen) == r
  {
    r.(statut := Some(Rejete), remarqueDoyen := remarque)
  }

  /** `updateSupport`'s change to a row: title, description and file URL only. */
  function Updated(r: SupportRow, titre: Option<string>, description: Option<string>,
                   fichierUrl: Option<string>): (s: SupportRow)
    ensures s.titre == titre && s.description == description && s.fichierUrl == fichierUrl
    ensures s.(titre := r.titre, description := r.description, fichierUrl := r.fichierUrl) == r
  {
    r.(titre := titre, description := description, fichierUrl := fichierUrl)
  }

  /** A call of one of the service operations that work on an existing id. */
  datatype Command =
    | Submit(id: int)
    | Validate(id: int, remarque: Option<string>, today: Date)
    | Reject(id: int, remarque: Option<string>)
    | Update(id: int, titre: Option<string>, description: Option<string>, fichierUrl: Option<string>)
    | Delete(id: int)

  /**
   * The table after one command. Only the target row changes, only delete removes
   * a row, and no command changes a row's id, teacher or deposit date.
   */
  function Apply(t: Store, c: Command): (t': Store)
    ensures c.Delete? ==> t'.Keys == t.Keys - {c.id}
    ensures !c.Delete? ==> t'.Keys == t.Keys
    ensures forall k :: k in t' && k != c.id ==> t'[k] == t[k]
    ensures forall k :: k in t' ==>
      (k in t && t'[k].id == t[k].id && t'[k].enseignantId == t[k].enseignantId && t'[k].dateDepot == t[k].dateDepot)
    ensures WellFormedStore(t) ==> WellFormedStore(t')
  {
    match c
    case Submit(id) =>
      if id in t then t[id := Submitted(t[id])] else t
    case Validate(id, remarque, today) =>
      if id in t then t[id := Validated(t[id], today, remarque)] else t
    case Reject(id, remarque) =>
      if id in t then t[id := Rejected(t[id], remarque)] else t
    case Update(id, titre, description, fichierUrl) =>
      if id in t && SatisfiesNotNullColumns(Updated(t[id], titre, description, fichierUrl))
      then t[id := Updated(t[id], titre, description, fichierUrl)]
      else t
    case Delete(id) =>
      t - {id}
  }

  /** The events one command publishes: one for a status change on a stored id. */
  function Published(t: Store, c: Command): seq<Event> {
    if c.id !in t then []
    else match c
      case Submit(id) => [Event(SubmittedKey, id)]
      case Validate(id, _, _) => [Event(ValidatedKey, id)]
      case Reject(id, _) => [Event(RejectedKey, id)]
      case Update(_, _, _, _) => []
      case Delete(_) => []
  }

  /** The table after a sequence of commands. */
  function Run(t: Store, cs: seq<Command>): Store
    decreases |cs|
  {
    if cs == [] then t else Run(Apply(t, cs[0]), cs[1..])
  }

  /** The events a sequence of commands publishes, in order. */
  function RunEvents(t: Store, cs: seq<Command>): seq<Event>
    decreases |cs|
  {
    if cs == [] then [] else Published(t, cs[0]) + RunEvents(Apply(t, cs[0]), cs[1..])
  }

  /** However many commands run, a surviving row keeps its id, teacher and deposit date. */
  lemma {:induction false} RunKeepsOwner(t: Store, cs: seq<Command>)
    ensures forall k :: k in Run(t, cs) ==>
      (k in t && Run(t, cs)[k].id == t[k].id && Run(t, cs)[k].enseignantId == t[k].enseignantId
       && Run(t, cs)[k].dateDepot == t[k].dateDepot)
    decreases |cs|
  {
    if cs != [] {
      RunKeepsOwner(Apply(t, cs[0]), cs[1..]);
    }
  }

  /** No command sequence can put a row with a null not-null column into the table. */
  lemma {:induction false} RunKeepsWellFormed(t: Store, cs: seq<Command>)
    requires WellFormedStore(t)
    ensures WellFormedStore(Run(t, cs))
    decreases |cs|
  {
    if cs != [] {
      RunKeepsWellFormed(Apply(t, cs[0]), cs[1..]);
    }
  }

  /** Every command publishes at most one event, and only about its own id. */
  lemma {:induction false} RunEventsPerCommand(t: Store, cs: seq<Command>)
    ensures |RunEvents(t, cs)| <= |cs|
    ensures forall e :: e in RunEvents(t, cs) ==> exists c :: c in cs && c.id == e.supportId
    decreases |cs|
  {
    if cs != [] {
      RunEventsPerCommand(Apply(t, cs[0]), cs[1..]);
      forall e | e in RunEvents(t, cs)
        ensures exists c :: c in cs && c.id == e.supportId
      {
        if e in Published(t, cs[0]) {
          assert cs[0] in cs;
        } else {
          assert e in RunEvents(Apply(t, cs[0]), cs[1..]);
          var c :| c in cs[1..] && c.id == e.supportId;
          assert c in cs;
        }
      }
    }
  }

  /** Running two commands is applying one after the other. */
  lemma RunTwo(t: Store, c1: Command, c2: Command)
    ensures Run(t, [c1, c2]) == Apply(Apply(t, c1), c2)
    ensures RunEvents(t, [c1, c2]) == Published(t, c1) + Published(Apply(t, c1), c2)
  {
    var t1 := Apply(t, c1);
    assert [c1, c2][1..] == [c2];
    assert [c2][1..] == [];
    assert Run(t, [c1, c2]) == Run(t1, [c2]) == Run(Apply(t1, c2), []);
    assert RunEvents(t, [c1, c2]) == Published(t, c1) + RunEvents(t1, [c2]);
    assert RunEvents(t1, [c2]) == Published(t1, c2) + RunEvents(Apply(t1, c2), []);
  }

  /**
   * Submitting twice leaves the same table as submitting once, but the broker
   * receives two `support.submitted` events: nothing guards a repeated request.
   */
  lemma ResubmitRepublishes(t: Store, id: int)
    requires id in t
    ensures Run(t, [Submit(id), Submit(id)]) == Run(t, [Submit(id)])
    ensures RunEvents(t, [Submit(id), Submit(id)]) == [Event(SubmittedKey, id), Event(SubmittedKey, id)]
  {
    RunTwo(t, Submit(id), Submit(id));
    assert [Submit(id)][1..] == [];
  }

  /** A validated material that is rejected afterwards keeps its validation date. */
  lemma RejectAfterValidateKeepsDate(t: Store, id: int, today: Date, r1: Option<string>, r2: Option<string>)
    requires id in t
    ensures var t' := Run(t, [Validate(id, r1, today), Reject(id, r2)]);
      && id in t'
      && t'[id].statut == Some(Rejete)
      && t'[id].dateValidation == Some(today)
      && t'[id].remarqueDoyen == r2
  {
    RunTwo(t, Validate(id, r1, today), Reject(id, r2));
  }

  /**
   * Submission has no status guard: a validated material can be submitted again,
   * and then it is `Soumis` while still carrying its validation date.
   */
  lemma SubmitAfterValidate(t: Store, id: int, today: Date, remarque: Option<string>)
    requires id in t
    ensures var t' := Run(t, [Validate(id, remarque, today), Submit(id)]);
      && id in t'
      && t'[id].statut == Some(Soumis)
      && t'[id].dateValidation == Some(today)
  {
    RunTwo(t, Validate(id, remarque, today), Submit(id));
  }

  /** The service object: the repository's table, its id generator and the broker's log. */
  class SupportCoursServiceImpl {
    var table: Store
    var nextId: int
    ghost var events: seq<Event>

    /** Rows are well formed and every stored id was handed out before `nextId`. */
    ghost predicate Valid()
      reads this
    {
      WellFormedStore(table) && forall k :: k in table ==> k < nextId
    }

    /** A service over an empty table. */
    constructor ()
      ensures Valid() && table == map[] && events == []
    {
      table := map[];
      nextId := 1;
      events := [];
    }

    /** `getSupportById`: the stored row, or nothing. */
    function GetSupportById(id: int): (r: Option<SupportRow>)
      reads this
      ensures r.Some? <==> id in table
      ensures r.Some? ==> r.value == table[id]
    {
      if id in table then Some(table[id]) else None
    }

    /** `getSupportsByStatut`: exactly the rows with the given status. */
    function GetSupportsByStatut(statut: Statut): (r: Store)
      reads this
      ensures forall k :: k in r <==> k in table && table[k].statut == Some(statut)
      ensures forall k :: k in r ==> r[k] == table[k]
    {
      map k | k in table && table[k].statut == Some(statut) :: table[k]
    }

    /** `getSupportsByEnseignant`: exactly the rows of the given teacher. */
    function GetSupportsByEnseignant(enseignantId: int): (r: Store)
      reads this
      ensures forall k :: k in r <==> k in table && table[k].enseignantId == Some(enseignantId)
      ensures forall k :: k in r ==> r[k] == table[k]
    {
      map k | k in table && table[k].enseignantId == Some(enseignantId) :: table[k]
    }

    /**
     * The repository's `save` of a new entity (null id): the `@PrePersist` hook runs
     * on the entity, the not-null columns are checked, and the row is inserted under
     * a fresh id that is written back into the entity.
     */
    method Persist(support: SupportCours, today: Date) returns (res: Result<SupportRow>)
      requires Valid() && support.id.None?
      modifies this, support
      ensures Valid() && events == old(events)
      ensures var d := WithCreateDefaults(old(support.Snapshot()), today);
        if SatisfiesNotNullColumns(d) then
          && res == Ok(d.(id := Some(old(nextId))))
          && old(nextId) !in old(table)
          && table == old(table)[old(nextId) := res.value]
          && support.Snapshot() == res.value
        else
          && res == Err(NotNullViolation)
          && table == old(table)
          && support.Snapshot() == d
    {
      support.OnCreate(today);
      if !SatisfiesNotNullColumns(support.Snapshot()) {
        return Err(NotNullViolation);
      }
      support.id := Some(nextId);
      table := table[nextId := support.Snapshot()];
      nextId := nextId + 1;
      res := Ok(support.Snapshot());
    }

    /**
     * The repository's `save` of a loaded entity: the not-null columns are checked
     * and the stored row is overwritten with the entity's fields.
     */
    method Merge(support: SupportCours) returns (res: Result<SupportRow>)
      requires Valid() && support.id.Some? && support.id.value in table
      modifies this
      ensures Valid() && events == old(events) && nextId == old(nextId)
      ensures if SatisfiesNotNullColumns(support.Snapshot()) then
          res == Ok(support.Snapshot()) && table == old(table)[support.id.value := support.Snapshot()]
        else
          res == Err(NotNullViolation) && table == old(table)
    {
      if !SatisfiesNotNullColumns(support.Snapshot()) {
        return Err(NotNullViolation);
      }
      table := table[support.id.value := support.Snapshot()];
      res := Ok(support.Snapshot());
    }

    /**
     * `createSupport`: the teacher id comes from the directory; a missing id is an
     * error and stores nothing. The new row is a draft deposited today.
     */
    method CreateSupport(username: string, directory: Directory, titre: Option<string>,
                         description: Option<string>, fichierUrl: Option<string>, today: Date)
      returns (res: Result<SupportRow>)
      requires Valid()
      modifies this
      ensures Valid() && events == old(events)
      ensures LookupUserId(directory, username).None? ==> res == Err(UserIdNotFound)
      ensures LookupUserId(directory, username).Some? && (titre.None? || fichierUrl.None?)
        ==> res == Err(NotNullViolation)
      ensures res.Ok? <==> LookupUserId(directory, username).Some? && titre.Some? && fichierUrl.Some?
      ensures res.Ok? ==>
        && res.value == SupportRow(Some(old(nextId)), titre, description, fichierUrl, None, None,
                                   LookupUserId(directory, username), Some(today), Some(Brouillon), None, None)
        && old(nextId) !in old(table)
        && table == old(table)[old(nextId) := res.value]
      ensures res.Err? ==> table == old(table)
    {
      var enseignantId := LookupUserId(directory, username);
      if enseignantId.None? {
        return Err(UserIdNotFound);
      }
      var support := new SupportCours();
      support.titre := titre;
      support.description := description;
      support.fichierUrl := fichierUrl;
      support.enseignantId := enseignantId;
      res := Persist(support, today);
    }

    /** `updateSupport`: title, description and file URL are overwritten; nothing is published. */
    method UpdateSupport(id: int, titre: Option<string>, description: Option<string>,
                         fichierUrl: Option<string>)
      returns (res: Result<SupportRow>)
      requires Valid()
      modifies this
      ensures Valid() && nextId == old(nextId) && events == old(events)
      ensures id !in old(table) ==> table == old(table) && events == old(events)
      ensures table == Apply(old(table), Update(id, titre, description, fichierUrl))
      ensures res == if id !in old(table) then Err(SupportNotFound)
        else if SatisfiesNotNullColumns(Updated(old(table)[id], titre, description, fichierUrl))
        then Ok(Updated(old(table)[id], titre, description, fichierUrl))
        else Err(NotNullViolation)
    {
      if id !in table {
        return Err(SupportNotFound);
      }
      var support := new SupportCours.Load(table[id]);
      support.titre := titre;
      support.description := description;
      support.fichierUrl := fichierUrl;
      res := Merge(support);
    }

    /** `submitSupport`: the status becomes `Soumis` from any status, and one event is published. */
    method SubmitSupport(id: int) returns (res: Result<SupportRow>)
      requires Valid()
      modifies this
      ensures Valid() && nextId == old(nextId)
      ensures id !in old(table) ==> table == old(table) && events == old(events)
      ensures table == Apply(old(table), Submit(id))
      ensures events == old(events) + Published(old(table), Submit(id))
      ensures res == if id in old(table) then Ok(Submitted(old(table)[id])) else Err(SupportNotFound)
    {
      if id !in table {
        return Err(SupportNotFound);
      }
      var support := new SupportCours.Load(table[id]);
      support.statut := Some(Soumis);
      events := events + [Event(SubmittedKey, support.id.value)];
      res := Merge(support);
    }

    /** `validateSupport`: status `Valide`, validation date today, the dean's remark; one event. */
    method ValidateSupport(id: int, remarque: Option<string>, today: Date) returns (res: Result<SupportRow>)
      requires Valid()
      modifies this
      ensures Valid() && nextId == old(nextId)
      ensures id !in old(table) ==> table == old(table) && events == old(events)
      ensures table == Apply(old(table), Validate(id, remarque, today))
      ensures events == old(events) + Published(old(table), Validate(id, remarque, today))
      ensures res == if id in old(table) then Ok(Validated(old(table)[id], today, remarque))
        else Err(SupportNotFound)
    {
      if id !in table {
        return Err(SupportNotFound);
      }
      var support := new SupportCours.Load(table[id]);
      support.statut := Some(Valide);
      support.dateValidation := Some(today);
      support.remarqueDoyen := remarque;
      events := events + [Event(ValidatedKey, support.id.value)];
      res := Merge(support);
    }

    /** `rejectSupport`: status `Rejete` and the dean's remark; the validation date stays; one event. */
    method RejectSupport(id: int, remarque: Option<string>) returns (res: Result<SupportRow>)
      requires Valid()
      modifies this
      ensures Valid() && nextId == old(nextId)
      ensures id !in old(table) ==> table == old(table) && events == old(events)
      ensures table == Apply(old(table), Reject(id, remarque))
      ensures events == old(events) + Published(old(table), Reject(id, remarque))
      ensures res == if id in old(table) then Ok(Rejected(old(table)[id], remarque))
        else Err(SupportNotFound)
    {
      if id !in table {
        return Err(SupportNotFound);
      }
      var support := new SupportCours.Load(table[id]);
      support.statut := Some(Rejete);
      support.remarqueDoyen := remarque;
      events := events + [Event(RejectedKey, support.id.value)];
      res := Merge(support);
    }

    /** `deleteSupport`: the row goes, whatever its status; an unknown id is ignored. */
    method DeleteSupport(id: int)
      requires Valid()
      modifies this
      ensures Valid() && nextId == old(nextId) && events == old(events)
      ensures table == Apply(old(table), Delete(id))
    {
      table := table - {id};
    }
  }
}
