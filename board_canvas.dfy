/**
 * The board view component: it holds the board it shows, the card being
 * dragged, and the state of the "add a list" form, and its handlers replace
 * that state as the drag-and-drop library and the form report events.
 */
module Canvas {
  import opened Store
  import opened Reorder
  import opened ReorderLemmas
  import opened JsText

  /** `lists.flatMap(list => list.cards).find(card => card.id === id)` */
  function FindCard(lists: seq<BoardList>, id: Id): (r: Option<Card>)
    ensures r.None? <==> forall k :: 0 <= k < |AllCards(lists)| ==> AllCards(lists)[k].id != id
    ensures r.Some? ==> r.value.id == id && r.value in AllCards(lists)
  {
    var all := AllCards(lists);
    var k := FindIndex(all, (c: Card) => c.id == id);
    if k == -1 then None
    else
      assert AllCards(lists)[k].id == id;
      Some(all[k])
  }

  /** The list record the create-list action returns. */
  datatype CreatedList = CreatedList(id: Id, title: string, order: int)

  /** The request the form sends to the create-list action. */
  datatype CreateListRequest = CreateListRequest(boardId: Id, title: string)

  /**
   * The payload of a drop, built as the handler builds it: one entry per
   * card, list after list, each card numbered by its index in its list.
   */
  method CollectPositions(lists: seq<BoardList>) returns (updated: seq<CardPosition>)
    ensures updated == Positions(lists)
  {
    updated := [];
    var a := 0;
    while a < |lists|
      invariant 0 <= a <= |lists|
      invariant updated == Positions(lists[..a])
    {
      var list := lists[a];
      var index := 0;
      while index < |list.cards|
        invariant 0 <= index <= |list.cards|
        invariant updated == Positions(lists[..a]) + ListPositions(list)[..index]
      {
        updated := updated + [CardPosition(list.cards[index].id, list.id, index)];
        index := index + 1;
      }
      assert ListPositions(list)[..|list.cards|] == ListPositions(list);
      assert lists[..a + 1][..a] == lists[..a];
      a := a + 1;
    }
    assert lists[..|lists|] == lists;
  }

  class BoardCanvas {
    var board: Board
    /** The card shown under the pointer while dragging. */
    var activeCard: Option<Card>
    var newListTitle: string
    var showNewList: bool

    constructor (initial: Board)
      ensures board == initial && activeCard == None
      ensures newListTitle == "" && !showNewList
    {
      board := initial;
      activeCard := None;
      newListTitle := "";
      showNewList := false;
    }

    /** A drag starts on card `activeId`: remember the card, if the board has it. */
    method HandleDragStart(activeId: Id)
      modifies this
      ensures board == old(board)
      ensures newListTitle == old(newListTitle) && showNewList == old(showNewList)
      ensures var found := FindCard(board.lists, activeId);
              activeCard == if found.Some? then found else old(activeCard)
    {
      var card := FindCard(board.lists, activeId);
      if card.Some? {
        activeCard := card;
      }
    }

    /**
     * The pointer, dragging card `activeId`, is over `over` (None when it is
     * over no drop target). The body is the handler's step-by-step form of
     * `DragOver`, which the first ensures ties it to; a well-formed board
     * keeps its lists and its cards.
     */
    method HandleDragOver(activeId: Id, over: Option<Id>)
      modifies this
      ensures board == DragOver(old(board), activeId, over)
      ensures activeCard == old(activeCard)
      ensures newListTitle == old(newListTitle) && showNewList == old(showNewList)
      ensures WellFormed(old(board)) ==>
                && WellFormed(board)
                && ListIds(board.lists) == ListIds(old(board).lists)
                && multiset(AllCards(board.lists)) == multiset(AllCards(old(board).lists))
    {
      if WellFormed(board) {
        DragOverPreserves(board, activeId, over);
      }
      if over.None? {
        return;
      }
      var overId := over.value;
      var a := FindIndex(board.lists, (l: BoardList) => Holds(l, activeId));
      if a == -1 {
        return;
      }
      var o := OverListIndex(board.lists, overId);
      if o == -1 {
        return;
      }
      var activeList, overList := board.lists[a], board.lists[o];
      if activeList.id == overList.id {
        var oldIndex := IndexOfCard(activeList.cards, activeId);
        var newIndex := IndexOfCard(activeList.cards, overId);
        if oldIndex != -1 && newIndex != -1 {
          var newCards := ArrayMove(activeList.cards, oldIndex, newIndex);
          board := board.(lists := WithCards(board.lists, activeList.id, newCards));
        }
      } else {
        var activeCards := Without(activeList.cards, activeId);
        var card := activeList.cards[IndexOfCard(activeList.cards, activeId)];
        var newOverCards := overList.cards;
        var overIndex := IndexOfCard(overList.cards, overId);
        if overIndex != -1 {
          newOverCards := newOverCards[..overIndex] + [card] + newOverCards[overIndex..];
        } else {
          newOverCards := newOverCards + [card];
        }
        board := board.(lists := WithCards2(board.lists, activeList.id, activeCards, overList.id, newOverCards));
      }
    }

    /**
     * The drag ends over `over`. The dragged card is always cleared; over a
     * target, the whole board is sent as one bulk reorder, in which the
     * cards of every list of a well-formed board are numbered 0, 1, ..., n - 1.
     */
    method HandleDragEnd(over: Option<Id>) returns (request: Option<seq<CardPosition>>)
      modifies this
      ensures activeCard == None
      ensures board == old(board)
      ensures newListTitle == old(newListTitle) && showNewList == old(showNewList)
      ensures request.None? <==> over.None?
      ensures request.Some? ==> request.value == Positions(board.lists)
      ensures request.Some? && WellFormed(board) ==>
                forall a :: 0 <= a < |board.lists| ==>
                  OrdersFor(request.value, board.lists[a].id) == Range(|board.lists[a].cards|)
    {
      activeCard := None;
      if over.None? {
        return None;
      }
      var updated := CollectPositions(board.lists);
      request := Some(updated);
      if WellFormed(board) {
        WfListIds(board.lists);
        forall a | 0 <= a < |board.lists|
          ensures OrdersFor(updated, board.lists[a].id) == Range(|board.lists[a].cards|)
        {
          OrdersAreRanks(board.lists, a);
        }
      }
    }

    /**
     * The "add a list" form is submitted. A blank title does nothing and
     * sends nothing. Otherwise the title is sent to the create-list action,
     * whose answer is `created` (None when the action failed, which leaves
     * the state as it was); the created list is appended, empty, after the
     * existing lists and the form is reset and closed.
     */
    method HandleCreateList(created: Option<CreatedList>) returns (request: Option<CreateListRequest>)
      modifies this
      ensures request == if Blank(old(newListTitle)) then None
                         else Some(CreateListRequest(old(board).id, old(newListTitle)))
      ensures activeCard == old(activeCard)
      ensures request.None? || created.None? ==>
                board == old(board) && newListTitle == old(newListTitle) && showNewList == old(showNewList)
      ensures request.Some? && created.Some? ==>
                && board.id == old(board).id && board.title == old(board).title
                && board.lists == old(board).lists
                     + [BoardList(created.value.id, created.value.title, created.value.order, [])]
                && newListTitle == "" && !showNewList
    {
      if Blank(newListTitle) {
        return None;
      }
      request := Some(CreateListRequest(board.id, newListTitle));
      if created.Some? {
        var newList := created.value;
        board := board.(lists := board.lists + [BoardList(newList.id, newList.title, newList.order, [])]);
        newListTitle := "";
        showNewList := false;
      }
    }
  }
}
