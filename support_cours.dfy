/**
 * The `support_cours` entity: its columns, the columns declared `nullable = false`,
 * and the `@PrePersist` hook that fills in the creation defaults.
 */
module SupportCoursModel {
  import opened Common

  /** The life-cycle status of a course material (Java enum `Statut`). */
  datatype Statut = Brouillon | Soumis | Valide | Rejete

  /** The level of a course material (Java enum `Niveau`); its constants are not part of this model. */
  datatype Niveau = Niveau(name: string)

  /** The column values of one course material; a null column is `None`. */
  datatype SupportRow = SupportRow(
    id: Option<int>,
    titre: Option<string>,
    description: Option<string>,
    fichierUrl: Option<string>,
    niveau: Option<Niveau>,
    matiere: Option<string>,
    enseignantId: Option<int>,
    dateDepot: Option<Date>,
    statut: Option<Statut>,
    dateValidation: Option<Date>,
    remarqueDoyen: Option<string>)

  /** The state of an entity built with the no-argument constructor: every field null. */
  const EmptyRow := SupportRow(None, None, None, None, None, None, None, None, None, None, None)

  /** The columns `titre`, `fichierUrl`, `enseignantId` and `statut` are declared `nullable = false`. */
  predicate SatisfiesNotNullColumns(r: SupportRow) {
    r.titre.Some? && r.fichierUrl.Some? && r.enseignantId.Some? && r.statut.Some?
  }

  /**
   * What the `@PrePersist` hook leaves in an entity: a missing deposit date becomes
   * `today`, a missing status becomes `Brouillon`; supplied values are kept and no
   * other field is touched.
   */
  function WithCreateDefaults(r: SupportRow, today: Date): (d: SupportRow)
    ensures r.dateDepot.Some? ==> d.dateDepot == r.dateDepot
    ensures r.dateDepot.None? ==> d.dateDepot == Some(today)
    ensures r.statut.Some? ==> d.statut == r.statut
    ensures r.statut.None? ==> d.statut == Some(Brouillon)
    ensures d.(dateDepot := r.dateDepot, statut := r.statut) == r
  {
    r.(dateDepot := if r.dateDepot.None? then Some(today) else r.dateDepot,
       statut := if r.statut.None? then Some(Brouillon) else r.statut)
  }

  /** Running the hook a second time with the same date changes nothing. */
  lemma WithCreateDefaultsIdempotent(r: SupportRow, today: Date)
    ensures WithCreateDefaults(WithCreateDefaults(r, today), today) == WithCreateDefaults(r, today)
  {
  }

  /**
   * After the hook the status column is always filled, so an insert can only be
   * refused for a missing title, file URL or teacher id.
   */
  lemma NotNullAfterCreateDefaults(r: SupportRow, today: Date)
    ensures WithCreateDefaults(r, today).statut.Some?
    ensures SatisfiesNotNullColumns(WithCreateDefaults(r, today))
        <==> r.titre.Some? && r.fichierUrl.Some? && r.enseignantId.Some?
  {
  }

  /** A `SupportCours` entity object; the Lombok setters are plain field assignments. */
  class SupportCours {
    var id: Option<int>
    var titre: Option<string>
    var description: Option<string>
    var fichierUrl: Option<string>
    var niveau: Option<Niveau>
    var matiere: Option<string>
    var enseignantId: Option<int>
    var dateDepot: Option<Date>
    var statut: Option<Statut>
    var dateValidation: Option<Date>
    var remarqueDoyen: Option<string>

    /** The field values of this entity. */
    function Snapshot(): SupportRow
      reads this
    {
      SupportRow(id, titre, description, fichierUrl, niveau, matiere,
                 enseignantId, dateDepot, statut, dateValidation, remarqueDoyen)
    }

    /** `new SupportCours()`: every field is null. */
    constructor ()
      ensures Snapshot() == EmptyRow
    {
      id, titre, description, fichierUrl := None, None, None, None;
      niveau, matiere, enseignantId, dateDepot := None, None, None, None;
      statut, dateValidation, remarqueDoyen := None, None, None;
    }

    /** The entity the repository hands out for a stored row. */
    constructor Load(r: SupportRow)
      ensures Snapshot() == r
    {
      id, titre, description, fichierUrl := r.id, r.titre, r.description, r.fichierUrl;
      niveau, matiere, enseignantId, dateDepot := r.niveau, r.matiere, r.enseignantId, r.dateDepot;
      statut, dateValidation, remarqueDoyen := r.statut, r.dateValidation, r.remarqueDoyen;
    }

    /** The `@PrePersist` hook `onCreate`, run on the entity itself. */
    method OnCreate(today: Date)
      modifies this
      ensures Snapshot() == WithCreateDefaults(old(Snapshot()), today)
    {
      if dateDepot.None? {
        dateDepot := Some(today);
      }
      if statut.None? {
        statut := Some(Brouillon);
      }
    }
  }
}
