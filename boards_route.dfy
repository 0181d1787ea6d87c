/**
 * `POST /api/boards`: create a board in an organization the caller belongs
 * to, with its three default lists.
 */
module BoardsRoute {
  import opened Store
  import opened Http

  /** The fields of the JSON body the route reads. */
  datatype BoardBody = BoardBody(title: Option<string>, description: Option<string>,
                                 organizationSlug: Option<string>)

  /** `userId` has a membership row, of any role, in organization `orgId`. */
  predicate IsMember(memberships: set<Membership>, orgId: Id, userId: Id)
  {
    exists m :: m in memberships && m.organizationId == orgId && m.userId == userId
  }

  /** The organization with slug `slug` exists and `userId` is one of its members. */
  predicate MemberOfSlug(db: Backend, slug: string, userId: Id)
    reads db
  {
    exists o :: o in db.organizations && db.organizations[o].slug == slug && IsMember(db.memberships, o, userId)
  }

  /** The lists of board `boardId`. */
  function ListsOf(lists: map<Id, ListRow>, boardId: Id): map<Id, ListRow>
  {
    map l | l in lists && lists[l].boardId == boardId :: lists[l]
  }

  /** A board that had no lists has exactly the three default lists once they are added. */
  lemma DefaultLists(lists: map<Id, ListRow>, boardId: Id, todoId: Id, progressId: Id, doneId: Id)
    requires forall l :: l in lists ==> lists[l].boardId != boardId
    requires todoId != progressId && todoId != doneId && progressId != doneId
    ensures var all := lists[todoId := ListRow("To Do", 0, boardId)]
                            [progressId := ListRow("In Progress", 1, boardId)]
                            [doneId := ListRow("Done", 2, boardId)];
            ListsOf(all, boardId) == map[todoId := ListRow("To Do", 0, boardId),
                                         progressId := ListRow("In Progress", 1, boardId),
                                         doneId := ListRow("Done", 2, boardId)]
  {
    var all := lists[todoId := ListRow("To Do", 0, boardId)]
                    [progressId := ListRow("In Progress", 1, boardId)]
                    [doneId := ListRow("Done", 2, boardId)];
    assert ListsOf(all, boardId).Keys == {todoId, progressId, doneId};
  }

  /**
   * The route. `body` is None when the body is not JSON (the route answers
   * 500); `boardId` and the three list ids are the ids the database gives
   * the new rows.
   */
  method PostBoard(db: Backend, session: Option<Session>, body: Option<BoardBody>,
                   boardId: Id, todoId: Id, progressId: Id, doneId: Id)
    returns (response: Response<(Id, BoardRow)>)
    requires db.Valid() && boardId !in db.boards
    requires todoId !in db.lists && progressId !in db.lists && doneId !in db.lists
    requires todoId != progressId && todoId != doneId && progressId != doneId
    modifies db
    ensures db.Valid()
    ensures session.None? ==> response == Error(401, "Unauthorized") && unchanged(db)
    ensures session.Some? && body.None? ==> response == Error(500, "Internal server error") && unchanged(db)
    ensures session.Some? && body.Some? && !(Truthy(body.value.title) && Truthy(body.value.organizationSlug)) ==>
              response == Error(400, "Title and organization are required") && unchanged(db)
    ensures session.Some? && body.Some? && Truthy(body.value.title) && Truthy(body.value.organizationSlug)
              && !old(MemberOfSlug(db, body.value.organizationSlug.value, session.value.userId)) ==>
              response == Error(404, "Organization not found or you are not a member") && unchanged(db)
    ensures session.Some? && body.Some? && Truthy(body.value.title) && Truthy(body.value.organizationSlug) ==>
              var user, b := session.value.userId, body.value;
              forall o :: o in old(db.organizations) && old(db.organizations)[o].slug == b.organizationSlug.value
                          && IsMember(old(db.memberships), o, user) ==>
                var board := BoardRow(b.title.value, b.description, o, user);
                && response == Json((boardId, board))
                && db.boards == old(db.boards)[boardId := board]
                && db.lists == old(db.lists)[todoId := ListRow("To Do", 0, boardId)]
                                            [progressId := ListRow("In Progress", 1, boardId)]
                                            [doneId := ListRow("Done", 2, boardId)]
                && ListsOf(db.lists, boardId) == map[todoId := ListRow("To Do", 0, boardId),
                                                     progressId := ListRow("In Progress", 1, boardId),
                                                     doneId := ListRow("Done", 2, boardId)]
                && db.cards == old(db.cards) && db.organizations == old(db.organizations)
                && db.memberships == old(db.memberships) && db.invalidated == old(db.invalidated)
  {
    if session.None? {
      return Error(401, "Unauthorized");
    }
    if body.None? {
      return Error(500, "Internal server error");
    }
    var b := body.value;
    if !Truthy(b.title) || !Truthy(b.organizationSlug) {
      return Error(400, "Title and organization are required");
    }
    var user := session.value.userId;
    if !MemberOfSlug(db, b.organizationSlug.value, user) {
      return Error(404, "Organization not found or you are not a member");
    }
    var o :| o in db.organizations && db.organizations[o].slug == b.organizationSlug.value
             && IsMember(db.memberships, o, user);
    assert forall o' :: o' in db.organizations && db.organizations[o'].slug == b.organizationSlug.value ==> o' == o;
    var board := BoardRow(b.title.value, b.description, o, user);
    DefaultLists(db.lists, boardId, todoId, progressId, doneId);
    db.boards := db.boards[boardId := board];
    db.lists := db.lists[todoId := ListRow("To Do", 0, boardId)]
                        [progressId := ListRow("In Progress", 1, boardId)]
                        [doneId := ListRow("Done", 2, boardId)];
    return Json((boardId, board));
  }
}
