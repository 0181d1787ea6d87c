/**
 * The server actions on lists. As for cards, each one first requires a
 * session, then performs its write on the list table and marks the view of
 * the list's board as stale.
 */
module ListActions {
  import opened Store

  /** The orders of the lists of board `boardId`. */
  function OrdersOnBoard(lists: map<Id, ListRow>, boardId: Id): map<Id, int>
  {
    map l | l in lists && lists[l].boardId == boardId :: lists[l].order
  }

  /** Every entry names a list of the table. */
  predicate ListIdsKnown(orders: seq<ListOrder>, lists: map<Id, ListRow>)
  {
    forall k :: 0 <= k < |orders| ==> orders[k].id in lists
  }

  predicate DistinctListIds(orders: seq<ListOrder>)
  {
    forall i, j :: 0 <= i < j < |orders| ==> orders[i].id != orders[j].id
  }

  /** The list table after writing the entries of `orders` one after the other. */
  function SetOrders(lists: map<Id, ListRow>, orders: seq<ListOrder>): (r: map<Id, ListRow>)
    requires ListIdsKnown(orders, lists)
    ensures r.Keys == lists.Keys
  {
    if orders == [] then lists
    else
      var e := orders[|orders| - 1];
      var prev := SetOrders(lists, orders[..|orders| - 1]);
      prev[e.id := prev[e.id].(order := e.order)]
  }

  /**
   * With distinct ids, every named list gets the order of its entry and
   * keeps its title and board; every other list is untouched.
   */
  lemma {:induction false} SetOrdersEffect(lists: map<Id, ListRow>, orders: seq<ListOrder>)
    requires ListIdsKnown(orders, lists) && DistinctListIds(orders)
    ensures forall k :: 0 <= k < |orders| ==>
              SetOrders(lists, orders)[orders[k].id] == lists[orders[k].id].(order := orders[k].order)
    ensures forall l :: l in lists && (forall k :: 0 <= k < |orders| ==> orders[k].id != l) ==>
              SetOrders(lists, orders)[l] == lists[l]
  {
    if orders != [] {
      var init := orders[..|orders| - 1];
      SetOrdersEffect(lists, init);
      forall k | 0 <= k < |orders| - 1 ensures orders[k].id != orders[|orders| - 1].id {
      }
      forall l | l in lists && (forall k :: 0 <= k < |orders| ==> orders[k].id != l)
        ensures SetOrders(lists, orders)[l] == lists[l]
      {
        assert orders[|orders| - 1].id != l;
        assert forall k :: 0 <= k < |init| ==> init[k].id != l by {
          forall k | 0 <= k < |init| ensures init[k].id != l {
            assert init[k] == orders[k];
          }
        }
      }
    }
  }

  /** Changing orders only never moves a list to another board. */
  lemma {:induction false} SetOrdersKeepsBoards(lists: map<Id, ListRow>, orders: seq<ListOrder>)
    requires ListIdsKnown(orders, lists)
    ensures forall l :: l in lists ==>
              SetOrders(lists, orders)[l].boardId == lists[l].boardId
              && SetOrders(lists, orders)[l].title == lists[l].title
  {
    if orders != [] {
      SetOrdersKeepsBoards(lists, orders[..|orders| - 1]);
    }
  }

  lemma SetOrdersStep(lists: map<Id, ListRow>, orders: seq<ListOrder>, i: nat)
    requires ListIdsKnown(orders, lists) && i < |orders|
    ensures var prev := SetOrders(lists, orders[..i]);
            var e := orders[i];
            SetOrders(lists, orders[..i + 1]) == prev[e.id := prev[e.id].(order := e.order)]
  {
    assert orders[..i + 1][..i] == orders[..i];
  }

  /**
   * `createList(boardId, title)`: the new list, with id `freshId` (chosen by
   * the database), goes after every list of its board.
   */
  method CreateList(db: Backend, session: Option<Session>, boardId: Id, title: string, freshId: Id)
    returns (r: Result<ListRow>)
    requires db.Valid() && freshId !in db.lists
    modifies db
    ensures db.Valid()
    ensures session.None? ==> r == Err(Unauthorized) && unchanged(db)
    ensures session.Some? && boardId !in old(db.boards) ==> r == Err(ForeignKeyViolation) && unchanged(db)
    ensures session.Some? && boardId in old(db.boards) ==>
              && r.Ok? && r.value.title == title && r.value.boardId == boardId
              && (OrdersOnBoard(old(db.lists), boardId) == map[] ==> r.value.order == 0)
              && (OrdersOnBoard(old(db.lists), boardId) != map[] ==>
                    OrderIsMax(OrdersOnBoard(old(db.lists), boardId), r.value.order - 1))
              && (forall l :: l in old(db.lists) && old(db.lists)[l].boardId == boardId ==>
                    old(db.lists)[l].order < r.value.order)
              && db.lists == old(db.lists)[freshId := r.value]
              && db.cards == old(db.cards) && db.boards == old(db.boards)
              && db.organizations == old(db.organizations) && db.memberships == old(db.memberships)
              && db.invalidated == old(db.invalidated) + [boardId]
  {
    if session.None? {
      return Err(Unauthorized);
    }
    var last := LastOrder(OrdersOnBoard(db.lists, boardId));
    if boardId !in db.boards {
      return Err(ForeignKeyViolation);
    }
    var orders := OrdersOnBoard(db.lists, boardId);
    forall l | l in db.lists && db.lists[l].boardId == boardId ensures db.lists[l].order < NextOrder(last) {
      assert l in orders;
    }
    var list := ListRow(title, NextOrder(last), boardId);
    db.lists := db.lists[freshId := list];
    db.invalidated := db.invalidated + [boardId];
    return Ok(list);
  }

  /** `updateList(listId, title)`: only the title of that one list changes. */
  method UpdateList(db: Backend, session: Option<Session>, listId: Id, title: string)
    returns (r: Result<ListRow>)
    requires db.Valid()
    modifies db
    ensures db.Valid()
    ensures session.None? ==> r == Err(Unauthorized) && unchanged(db)
    ensures session.Some? && listId !in old(db.lists) ==> r == Err(RecordNotFound) && unchanged(db)
    ensures session.Some? && listId in old(db.lists) ==>
              && r == Ok(old(db.lists)[listId].(title := title))
              && db.lists == old(db.lists)[listId := r.value]
              && db.cards == old(db.cards) && db.boards == old(db.boards)
              && db.organizations == old(db.organizations) && db.memberships == old(db.memberships)
              && db.invalidated == old(db.invalidated) + [old(db.lists)[listId].boardId]
  {
    if session.None? {
      return Err(Unauthorized);
    }
    if listId !in db.lists {
      return Err(RecordNotFound);
    }
    var list := db.lists[listId].(title := title);
    db.lists := db.lists[listId := list];
    db.invalidated := db.invalidated + [list.boardId];
    return Ok(list);
  }

  /**
   * `deleteList(listId)`: exactly that list disappears, and with it the
   * cards it held (the delete cascades); every other card stays.
   */
  method DeleteList(db: Backend, session: Option<Session>, listId: Id)
    returns (r: Result<ListRow>)
    requires db.Valid()
    modifies db
    ensures db.Valid()
    ensures session.None? ==> r == Err(Unauthorized) && unchanged(db)
    ensures session.Some? && listId !in old(db.lists) ==> r == Err(RecordNotFound) && unchanged(db)
    ensures session.Some? && listId in old(db.lists) ==>
              && r == Ok(old(db.lists)[listId])
              && db.lists == old(db.lists) - {listId}
              && (forall c :: c in db.cards <==> c in old(db.cards) && old(db.cards)[c].listId != listId)
              && (forall c :: c in db.cards ==> db.cards[c] == old(db.cards)[c])
              && db.boards == old(db.boards)
              && db.organizations == old(db.organizations) && db.memberships == old(db.memberships)
              && db.invalidated == old(db.invalidated) + [r.value.boardId]
  {
    if session.None? {
      return Err(Unauthorized);
    }
    if listId !in db.lists {
      return Err(RecordNotFound);
    }
    var list := db.lists[listId];
    var kept := map c | c in db.cards && db.cards[c].listId != listId :: db.cards[c];
    assert forall c :: c in kept ==> kept[c].listId in db.lists - {listId};
    db.cards := kept;
    db.lists := db.lists - {listId};
    db.invalidated := db.invalidated + [list.boardId];
    return Ok(list);
  }

  /** The writes of the bulk list reorder, one entry after the other. */
  method WriteOrders(db: Backend, orders: seq<ListOrder>)
    requires ListIdsKnown(orders, db.lists)
    modifies db
    ensures db.lists == SetOrders(old(db.lists), orders)
    ensures db.cards == old(db.cards) && db.boards == old(db.boards)
    ensures db.organizations == old(db.organizations) && db.memberships == old(db.memberships)
    ensures db.invalidated == old(db.invalidated)
  {
    var i := 0;
    while i < |orders|
      invariant 0 <= i <= |orders|
      invariant ListIdsKnown(orders[..i], old(db.lists))
      invariant db.lists == SetOrders(old(db.lists), orders[..i])
      invariant db.cards == old(db.cards) && db.boards == old(db.boards)
      invariant db.organizations == old(db.organizations) && db.memberships == old(db.memberships)
      invariant db.invalidated == old(db.invalidated)
    {
      var e := orders[i];
      SetOrdersStep(old(db.lists), orders, i);
      db.lists := db.lists[e.id := db.lists[e.id].(order := e.order)];
      i := i + 1;
      assert ListIdsKnown(orders[..i], old(db.lists)) by {
        forall k | 0 <= k < i ensures orders[..i][k].id in old(db.lists) {
          assert orders[..i][k] == orders[k];
        }
      }
    }
    assert orders[..|orders|] == orders;
  }

  /**
   * `reorderLists(boardId, orders)`: every named list gets its entry's
   * order. The batch is all or nothing here: an unknown list fails before
   * any write. Board `boardId` is marked stale after any successful batch,
   * the empty one included.
   */
  method ReorderLists(db: Backend, session: Option<Session>, boardId: Id, orders: seq<ListOrder>)
    returns (r: Result<()>)
    requires db.Valid()
    requires DistinctListIds(orders)
    modifies db
    ensures db.Valid()
    ensures session.None? ==> r == Err(Unauthorized) && unchanged(db)
    ensures session.Some? && !ListIdsKnown(orders, old(db.lists)) ==> r == Err(RecordNotFound) && unchanged(db)
    ensures session.Some? && ListIdsKnown(orders, old(db.lists)) ==>
              && r == Ok(())
              && db.lists == SetOrders(old(db.lists), orders)
              && (forall k :: 0 <= k < |orders| ==>
                    db.lists[orders[k].id] == old(db.lists)[orders[k].id].(order := orders[k].order))
              && (forall l :: l in old(db.lists) && (forall k :: 0 <= k < |orders| ==> orders[k].id != l) ==>
                    db.lists[l] == old(db.lists)[l])
              && db.cards == old(db.cards) && db.boards == old(db.boards)
              && db.organizations == old(db.organizations) && db.memberships == old(db.memberships)
              && db.invalidated == old(db.invalidated) + [boardId]
  {
    if session.None? {
      return Err(Unauthorized);
    }
    if !ListIdsKnown(orders, db.lists) {
      return Err(RecordNotFound);
    }
    WriteOrders(db, orders);
    SetOrdersEffect(old(db.lists), orders);
    SetOrdersKeepsBoards(old(db.lists), orders);
    db.invalidated := db.invalidated + [boardId];
    return Ok(());
  }
}
