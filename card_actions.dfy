/**
 * The server actions on cards. Each one first requires a session (without
 * one it fails before reading or writing anything), then performs one write
 * on the card table and marks the view of the affected board as stale.
 */
module CardActions {
  import opened Store

  /** The orders of the cards of list `listId`. */
  function OrdersInList(cards: map<Id, CardRow>, listId: Id): map<Id, int>
  {
    map c | c in cards && cards[c].listId == listId :: cards[c].order
  }

  /** No two entries share an order. */
  ghost predicate OrdersDistinct(orders: map<Id, int>)
  {
    forall k1, k2 :: k1 in orders && k2 in orders && k1 != k2 ==> orders[k1] != orders[k2]
  }

  /**
   * A row appended with `NextOrder` of the largest order in scope sorts after
   * every row already there, so orders that were distinct stay distinct.
   */
  lemma AppendKeepsOrdersDistinct(orders: map<Id, int>, last: Option<int>, id: Id)
    requires last.None? <==> orders == map[]
    requires last.Some? ==> OrderIsMax(orders, last.value)
    requires OrdersDistinct(orders) && id !in orders
    ensures forall k :: k in orders ==> orders[k] < NextOrder(last)
    ensures OrdersDistinct(orders[id := NextOrder(last)])
  {
    var o := NextOrder(last);
    forall k | k in orders ensures orders[k] < o {
      assert last.Some? by { assert k in orders.Keys; }
    }
  }

  /** The fields `updateCard` may change; None leaves a field as it is. */
  datatype CardPatch = CardPatch(
    title: Option<string>,
    description: Option<string>,
    dueDate: Option<Option<int>>,   // Some(None) clears the due date
    completed: Option<bool>)

  /** The row after `update({ data: patch })`: supplied fields replaced, the rest kept. */
  function ApplyPatch(row: CardRow, patch: CardPatch): (r: CardRow)
    ensures r.listId == row.listId && r.order == row.order
    ensures r.title == (if patch.title.Some? then patch.title.value else row.title)
    ensures r.description == (if patch.description.Some? then Some(patch.description.value) else row.description)
    ensures r.dueDate == (if patch.dueDate.Some? then patch.dueDate.value else row.dueDate)
    ensures r.completed == (if patch.completed.Some? then patch.completed.value else row.completed)
    ensures patch == CardPatch(None, None, None, None) ==> r == row
  {
    var r := if patch.title.Some? then row.(title := patch.title.value) else row;
    var r := if patch.description.Some? then r.(description := Some(patch.description.value)) else r;
    var r := if patch.dueDate.Some? then r.(dueDate := patch.dueDate.value) else r;
    if patch.completed.Some? then r.(completed := patch.completed.value) else r
  }

  /** Every entry names a card of the table. */
  predicate CardsKnown(updates: seq<CardPosition>, cards: map<Id, CardRow>)
  {
    forall k :: 0 <= k < |updates| ==> updates[k].id in cards
  }

  /** Every entry names a list of the table. */
  predicate ListsKnown(updates: seq<CardPosition>, lists: map<Id, ListRow>)
  {
    forall k :: 0 <= k < |updates| ==> updates[k].listId in lists
  }

  predicate DistinctCardIds(updates: seq<CardPosition>)
  {
    forall i, j :: 0 <= i < j < |updates| ==> updates[i].id != updates[j].id
  }

  /** The card table after writing the entries of `updates` one after the other. */
  function Reposition(cards: map<Id, CardRow>, updates: seq<CardPosition>): (r: map<Id, CardRow>)
    requires CardsKnown(updates, cards)
    ensures r.Keys == cards.Keys
  {
    if updates == [] then cards
    else
      var u := updates[|updates| - 1];
      var prev := Reposition(cards, updates[..|updates| - 1]);
      prev[u.id := prev[u.id].(listId := u.listId, order := u.order)]
  }

  /**
   * With distinct ids, every card named in the request ends with the list
   * and order of its entry and keeps its other fields, and every other card
   * is untouched.
   */
  lemma {:induction false} RepositionEffect(cards: map<Id, CardRow>, updates: seq<CardPosition>)
    requires CardsKnown(updates, cards)
    requires DistinctCardIds(updates)
    ensures forall k :: 0 <= k < |updates| ==>
              Reposition(cards, updates)[updates[k].id]
              == cards[updates[k].id].(listId := updates[k].listId, order := updates[k].order)
    ensures forall c :: c in cards && (forall k :: 0 <= k < |updates| ==> updates[k].id != c) ==>
              Reposition(cards, updates)[c] == cards[c]
  {
    if updates != [] {
      var init := updates[..|updates| - 1];
      RepositionEffect(cards, init);
      forall k | 0 <= k < |updates| - 1 ensures updates[k].id != updates[|updates| - 1].id {
      }
      forall c | c in cards && (forall k :: 0 <= k < |updates| ==> updates[k].id != c)
        ensures Reposition(cards, updates)[c] == cards[c]
      {
        assert updates[|updates| - 1].id != c;
        assert forall k :: 0 <= k < |init| ==> init[k].id != c by {
          forall k | 0 <= k < |init| ensures init[k].id != c {
            assert init[k] == updates[k];
          }
        }
      }
    }
  }

  lemma RepositionStep(cards: map<Id, CardRow>, updates: seq<CardPosition>, i: nat)
    requires CardsKnown(updates, cards)
    requires i < |updates|
    ensures var prev := Reposition(cards, updates[..i]);
            var u := updates[i];
            Reposition(cards, updates[..i + 1]) == prev[u.id := prev[u.id].(listId := u.listId, order := u.order)]
  {
    assert updates[..i + 1][..i] == updates[..i];
  }

  /** Writing only existing lists keeps every card pointing at an existing list. */
  lemma {:induction false} RepositionKeepsLists(cards: map<Id, CardRow>, updates: seq<CardPosition>,
                                                lists: map<Id, ListRow>)
    requires CardsKnown(updates, cards) && ListsKnown(updates, lists)
    requires forall c :: c in cards ==> cards[c].listId in lists
    ensures forall c :: c in Reposition(cards, updates) ==> Reposition(cards, updates)[c].listId in lists
  {
    if updates != [] {
      RepositionKeepsLists(cards, updates[..|updates| - 1], lists);
    }
  }

  /** The board whose view shows list `listId`. */
  function BoardOf(db: Backend, listId: Id): Id
    reads db
    requires listId in db.lists
  {
    db.lists[listId].boardId
  }

  /**
   * `createCard(listId, title)`: the new card, with id `freshId` (chosen by
   * the database), goes after every card of its list.
   */
  method CreateCard(db: Backend, session: Option<Session>, listId: Id, title: string, freshId: Id)
    returns (r: Result<CardRow>)
    requires db.Valid() && freshId !in db.cards
    modifies db
    ensures db.Valid()
    ensures session.None? ==> r == Err(Unauthorized) && unchanged(db)
    ensures session.Some? && listId !in old(db.lists) ==> r == Err(ForeignKeyViolation) && unchanged(db)
    ensures session.Some? && listId in old(db.lists) ==>
              && r.Ok?
              && r.value.title == title && r.value.listId == listId
              && r.value.description.None? && r.value.dueDate.None? && !r.value.completed
              && (OrdersInList(old(db.cards), listId) == map[] ==> r.value.order == 0)
              && (OrdersInList(old(db.cards), listId) != map[] ==>
                    OrderIsMax(OrdersInList(old(db.cards), listId), r.value.order - 1))
              && (forall c :: c in old(db.cards) && old(db.cards)[c].listId == listId ==>
                    old(db.cards)[c].order < r.value.order)
              && db.cards == old(db.cards)[freshId := r.value]
              && db.lists == old(db.lists) && db.boards == old(db.boards)
              && db.organizations == old(db.organizations) && db.memberships == old(db.memberships)
              && db.invalidated == old(db.invalidated) + [old(db.lists)[listId].boardId]
  {
    if session.None? {
      return Err(Unauthorized);
    }
    var last := LastOrder(OrdersInList(db.cards, listId));
    if listId !in db.lists {
      return Err(ForeignKeyViolation);
    }
    var orders := OrdersInList(db.cards, listId);
    forall c | c in db.cards && db.cards[c].listId == listId ensures db.cards[c].order < NextOrder(last) {
      assert c in orders;
    }
    var card := CardRow(title, None, None, false, listId, NextOrder(last));
    db.cards := db.cards[freshId := card];
    db.invalidated := db.invalidated + [BoardOf(db, listId)];
    return Ok(card);
  }

  /** `updateCard(cardId, data)`: only the supplied fields of that one card change. */
  method UpdateCard(db: Backend, session: Option<Session>, cardId: Id, patch: CardPatch)
    returns (r: Result<CardRow>)
    requires db.Valid()
    modifies db
    ensures db.Valid()
    ensures session.None? ==> r == Err(Unauthorized) && unchanged(db)
    ensures session.Some? && cardId !in old(db.cards) ==> r == Err(RecordNotFound) && unchanged(db)
    ensures session.Some? && cardId in old(db.cards) ==>
              && r == Ok(ApplyPatch(old(db.cards)[cardId], patch))
              && db.cards == old(db.cards)[cardId := r.value]
              && db.lists == old(db.lists) && db.boards == old(db.boards)
              && db.organizations == old(db.organizations) && db.memberships == old(db.memberships)
              && db.invalidated == old(db.invalidated) + [old(db.lists)[r.value.listId].boardId]
  {
    if session.None? {
      return Err(Unauthorized);
    }
    if cardId !in db.cards {
      return Err(RecordNotFound);
    }
    var card := ApplyPatch(db.cards[cardId], patch);
    db.cards := db.cards[cardId := card];
    db.invalidated := db.invalidated + [BoardOf(db, card.listId)];
    return Ok(card);
  }

  /** `deleteCard(cardId)`: exactly that card disappears. */
  method DeleteCard(db: Backend, session: Option<Session>, cardId: Id)
    returns (r: Result<CardRow>)
    requires db.Valid()
    modifies db
    ensures db.Valid()
    ensures session.None? ==> r == Err(Unauthorized) && unchanged(db)
    ensures session.Some? && cardId !in old(db.cards) ==> r == Err(RecordNotFound) && unchanged(db)
    ensures session.Some? && cardId in old(db.cards) ==>
              && r == Ok(old(db.cards)[cardId])
              && db.cards == old(db.cards) - {cardId}
              && db.lists == old(db.lists) && db.boards == old(db.boards)
              && db.organizations == old(db.organizations) && db.memberships == old(db.memberships)
              && db.invalidated == old(db.invalidated) + [old(db.lists)[r.value.listId].boardId]
  {
    if session.None? {
      return Err(Unauthorized);
    }
    if cardId !in db.cards {
      return Err(RecordNotFound);
    }
    var card := db.cards[cardId];
    db.cards := db.cards - {cardId};
    db.invalidated := db.invalidated + [BoardOf(db, card.listId)];
    return Ok(card);
  }

  /** `moveCard(cardId, newListId, newOrder)`: the card's list and order, and nothing else. */
  method MoveCard(db: Backend, session: Option<Session>, cardId: Id, newListId: Id, newOrder: int)
    returns (r: Result<CardRow>)
    requires db.Valid()
    modifies db
    ensures db.Valid()
    ensures session.None? ==> r == Err(Unauthorized) && unchanged(db)
    ensures session.Some? && cardId !in old(db.cards) ==> r == Err(RecordNotFound) && unchanged(db)
    ensures session.Some? && cardId in old(db.cards) && newListId !in old(db.lists) ==>
              r == Err(ForeignKeyViolation) && unchanged(db)
    ensures session.Some? && cardId in old(db.cards) && newListId in old(db.lists) ==>
              && r == Ok(old(db.cards)[cardId].(listId := newListId, order := newOrder))
              && db.cards == old(db.cards)[cardId := r.value]
              && db.lists == old(db.lists) && db.boards == old(db.boards)
              && db.organizations == old(db.organizations) && db.memberships == old(db.memberships)
              && db.invalidated == old(db.invalidated) + [old(db.lists)[newListId].boardId]
  {
    if session.None? {
      return Err(Unauthorized);
    }
    if cardId !in db.cards {
      return Err(RecordNotFound);
    }
    if newListId !in db.lists {
      return Err(ForeignKeyViolation);
    }
    var card := db.cards[cardId].(listId := newListId, order := newOrder);
    db.cards := db.cards[cardId := card];
    db.invalidated := db.invalidated + [BoardOf(db, newListId)];
    return Ok(card);
  }

  /** The writes of the bulk reorder, one entry after the other. */
  method WriteAll(db: Backend, updates: seq<CardPosition>)
    requires CardsKnown(updates, db.cards)
    modifies db
    ensures db.cards == Reposition(old(db.cards), updates)
    ensures db.lists == old(db.lists) && db.boards == old(db.boards)
    ensures db.organizations == old(db.organizations) && db.memberships == old(db.memberships)
    ensures db.invalidated == old(db.invalidated)
  {
    var i := 0;
    while i < |updates|
      invariant 0 <= i <= |updates|
      invariant CardsKnown(updates[..i], old(db.cards))
      invariant db.cards == Reposition(old(db.cards), updates[..i])
      invariant db.lists == old(db.lists) && db.boards == old(db.boards)
      invariant db.organizations == old(db.organizations) && db.memberships == old(db.memberships)
      invariant db.invalidated == old(db.invalidated)
    {
      var u := updates[i];
      RepositionStep(old(db.cards), updates, i);
      db.cards := db.cards[u.id := db.cards[u.id].(listId := u.listId, order := u.order)];
      i := i + 1;
      assert CardsKnown(updates[..i], old(db.cards)) by {
        forall k | 0 <= k < i ensures updates[..i][k].id in old(db.cards) {
          assert updates[..i][k] == updates[k];
        }
      }
    }
    assert updates[..|updates|] == updates;
  }

  /**
   * `reorderCards(updates)`: every entry's card is written with the entry's
   * list and order. The batch is all or nothing here: an unknown card or
   * list fails before any write. The board of the first entry's card, when
   * there is one, is marked stale.
   */
  method ReorderCards(db: Backend, session: Option<Session>, updates: seq<CardPosition>)
    returns (r: Result<()>)
    requires db.Valid()
    requires DistinctCardIds(updates)
    modifies db
    ensures db.Valid()
    ensures session.None? ==> r == Err(Unauthorized) && unchanged(db)
    ensures session.Some? && !CardsKnown(updates, old(db.cards)) ==>
              r == Err(RecordNotFound) && unchanged(db)
    ensures session.Some? && CardsKnown(updates, old(db.cards)) && !ListsKnown(updates, old(db.lists)) ==>
              r == Err(ForeignKeyViolation) && unchanged(db)
    ensures session.Some? && CardsKnown(updates, old(db.cards)) && ListsKnown(updates, old(db.lists)) ==>
              && r == Ok(())
              && db.cards == Reposition(old(db.cards), updates)
              && (forall k :: 0 <= k < |updates| ==>
                    db.cards[updates[k].id]
                    == old(db.cards)[updates[k].id].(listId := updates[k].listId, order := updates[k].order))
              && (forall c :: c in old(db.cards) && (forall k :: 0 <= k < |updates| ==> updates[k].id != c) ==>
                    db.cards[c] == old(db.cards)[c])
              && db.lists == old(db.lists) && db.boards == old(db.boards)
              && db.organizations == old(db.organizations) && db.memberships == old(db.memberships)
              && db.invalidated == old(db.invalidated)
                   + (if updates == [] then [] else [old(db.lists)[updates[0].listId].boardId])
  {
    if session.None? {
      return Err(Unauthorized);
    }
    if !CardsKnown(updates, db.cards) {
      return Err(RecordNotFound);
    }
    if !ListsKnown(updates, db.lists) {
      return Err(ForeignKeyViolation);
    }
    WriteAll(db, updates);
    RepositionKeepsLists(old(db.cards), updates, db.lists);
    RepositionEffect(old(db.cards), updates);
    if |updates| > 0 {
      var first := updates[0];
      db.invalidated := db.invalidated + [BoardOf(db, db.cards[first.id].listId)];
    }
    return Ok(());
  }
}
