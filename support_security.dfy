/**
 * `SupportSecurity`: the ownership and identity checks that the access rules call.
 * Both look the caller's id up in the user directory by username.
 */
module SupportSecurity {
  import opened Common
  import opened SecurityModel
  import opened SupportCoursService

  /**
   * `isOwner`: the caller is authenticated, the directory knows their id, the
   * support exists, and its teacher is that id. (A stored row always has a
   * teacher id, so the null teacher id that would throw cannot occur.)
   */
  function IsOwner(auth: Option<Authentication>, supportId: int, directory: Directory,
                   service: SupportCoursServiceImpl): (r: bool)
    reads service
    ensures !IsAuthenticated(auth) ==> !r
    ensures auth.Some? && LookupUserId(directory, auth.value.username).None? ==> !r
    ensures supportId !in service.table ==> !r
    ensures IsAuthenticated(auth) && supportId in service.table ==>
      (r <==> service.table[supportId].enseignantId == LookupUserId(directory, auth.value.username)
              && LookupUserId(directory, auth.value.username).Some?)
  {
    if auth.None? || !auth.value.authenticated then
      false
    else
      var authenticatedUserId := LookupUserId(directory, auth.value.username);
      if authenticatedUserId.None? then
        false
      else
        match service.GetSupportById(supportId)
        case Some(support) => support.enseignantId == authenticatedUserId
        case None => false
  }

  /** `isUser`: the caller is authenticated and the directory gives them the path's user id. */
  function IsUser(auth: Option<Authentication>, pathUserId: int, directory: Directory): (r: bool)
    ensures r <==> IsAuthenticated(auth) && LookupUserId(directory, auth.value.username) == Some(pathUserId)
  {
    if auth.None? || !auth.value.authenticated then
      false
    else
      var authenticatedUserId := LookupUserId(directory, auth.value.username);
      authenticatedUserId.Some? && authenticatedUserId.value == pathUserId
  }

  /** The owner of a support is exactly the user whose id is the support's teacher id. */
  lemma OwnerIsUserOfTeacherId(auth: Option<Authentication>, supportId: int, directory: Directory,
                               service: SupportCoursServiceImpl)
    requires supportId in service.table && service.table[supportId].enseignantId.Some?
    ensures IsOwner(auth, supportId, directory, service)
        <==> IsUser(auth, service.table[supportId].enseignantId.value, directory)
  {
  }

  /** Only the rows' keys and teacher ids matter to `isOwner`; statuses and dates do not. */
  lemma IsOwnerDependsOnlyOnTeachers(auth: Option<Authentication>, supportId: int, directory: Directory,
                                     s1: SupportCoursServiceImpl, s2: SupportCoursServiceImpl)
    requires s1.table.Keys == s2.table.Keys
    requires forall k :: k in s1.table ==> s1.table[k].enseignantId == s2.table[k].enseignantId
    ensures IsOwner(auth, supportId, directory, s1) == IsOwner(auth, supportId, directory, s2)
  {
  }
}
