/**
 * The reorder engine of the board view, on values: the board is a sequence
 * of lists and each list a sequence of cards. A drag gesture rewrites that
 * arrangement on every hover (`DragOver`) and, on release, the whole
 * arrangement is flattened into one bulk reorder request (`Positions`).
 *
 * The component that holds the board and calls these is `BoardCanvas`.
 */
module Reorder {
  import opened Store

  /** A card as loaded into the board view; the view never rewrites its fields. */
  datatype Card = Card(id: Id, title: string, listId: Id, order: int)

  datatype BoardList = BoardList(id: Id, title: string, order: int, cards: seq<Card>)

  datatype Board = Board(id: Id, title: string, lists: seq<BoardList>)

  // ---------------------------------------------------------------------------
  // Searching and rebuilding sequences (Array.prototype.findIndex, filter, map)
  // ---------------------------------------------------------------------------

  /** `s.findIndex(p)`: the first index whose element satisfies `p`, or -1. */
  function FindIndex<T>(s: seq<T>, p: T -> bool): (r: int)
    ensures -1 <= r < |s|
    ensures r == -1 <==> forall k :: 0 <= k < |s| ==> !p(s[k])
    ensures r != -1 ==> p(s[r]) && forall k :: 0 <= k < r ==> !p(s[k])
  {
    if s == [] then -1
    else if p(s[0]) then 0
    else
      var r := FindIndex(s[1..], p);
      if r == -1 then -1 else r + 1
  }

  /** `cards.findIndex(card => card.id === id)` */
  function IndexOfCard(cards: seq<Card>, id: Id): int
  {
    FindIndex(cards, (c: Card) => c.id == id)
  }

  /** `list.cards.some(card => card.id === id)` */
  predicate Holds(l: BoardList, id: Id)
  {
    exists k :: 0 <= k < |l.cards| && l.cards[k].id == id
  }

  /** `cards.filter(card => card.id !== id)` */
  function Without(cards: seq<Card>, id: Id): (r: seq<Card>)
    ensures |r| <= |cards|
    ensures forall k :: 0 <= k < |r| ==> r[k].id != id && r[k] in cards
    ensures forall k :: 0 <= k < |cards| && cards[k].id != id ==> cards[k] in r
  {
    if cards == [] then []
    else (if cards[0].id == id then [] else [cards[0]]) + Without(cards[1..], id)
  }

  function RemoveAt<T>(s: seq<T>, i: nat): seq<T>
    requires i < |s|
  {
    s[..i] + s[i + 1..]
  }

  /** `s.splice(i, 0, x)` on a copy of `s`. */
  function InsertAt<T>(s: seq<T>, i: nat, x: T): (r: seq<T>)
    requires i <= |s|
    ensures |r| == |s| + 1 && r[i] == x
    ensures RemoveAt(r, i) == s
  {
    s[..i] + [x] + s[i..]
  }

  /**
   * `arrayMove(s, from, to)` of the sortable drag-and-drop library: take the
   * element at `from` out, then insert it at `to` of what is left.
   */
  function ArrayMove<T>(s: seq<T>, from: nat, to: nat): (r: seq<T>)
    requires from < |s| && to < |s|
    ensures |r| == |s| && r[to] == s[from]
    ensures multiset(r) == multiset(s)
    ensures RemoveAt(r, to) == RemoveAt(s, from)
    ensures from == to ==> r == s
  {
    var rest := RemoveAt(s, from);
    assert s == s[..from] + [s[from]] + s[from + 1..];
    var r := InsertAt(rest, to, s[from]);
    assert rest == rest[..to] + rest[to..];
    assert RemoveAt(r, to) == rest;
    calc {
      multiset(r);
      multiset(rest[..to]) + multiset{s[from]} + multiset(rest[to..]);
      multiset(rest) + multiset{s[from]};
      multiset(s[..from]) + multiset(s[from + 1..]) + multiset{s[from]};
      multiset(s);
    }
    r
  }

  /** `lists.map(l => l.id === id ? { ...l, cards } : l)` */
  function WithCards(lists: seq<BoardList>, id: Id, cards: seq<Card>): (r: seq<BoardList>)
    ensures ListIds(r) == ListIds(lists)
    ensures forall k :: 0 <= k < |r| && lists[k].id != id ==> r[k] == lists[k]
    ensures forall k :: 0 <= k < |r| && lists[k].id == id ==> r[k].cards == cards && r[k].title == lists[k].title
  {
    seq(|lists|, k requires 0 <= k < |lists| =>
      if lists[k].id == id then lists[k].(cards := cards) else lists[k])
  }

  /** The two-list rebuild of a move across lists: the origin first, then the target. */
  function WithCards2(lists: seq<BoardList>, fromId: Id, fromCards: seq<Card>,
                      toId: Id, toCards: seq<Card>): (r: seq<BoardList>)
    ensures ListIds(r) == ListIds(lists)
    ensures forall k :: 0 <= k < |r| && lists[k].id != fromId && lists[k].id != toId ==> r[k] == lists[k]
    ensures forall k :: 0 <= k < |r| && lists[k].id == fromId ==> r[k].cards == fromCards
    ensures forall k :: 0 <= k < |r| && lists[k].id == toId && toId != fromId ==> r[k].cards == toCards
  {
    seq(|lists|, k requires 0 <= k < |lists| =>
      if lists[k].id == fromId then lists[k].(cards := fromCards)
      else if lists[k].id == toId then lists[k].(cards := toCards)
      else lists[k])
  }

  // ---------------------------------------------------------------------------
  // The board as a whole
  // ---------------------------------------------------------------------------

  function ListIds(lists: seq<BoardList>): seq<Id>
  {
    seq(|lists|, k requires 0 <= k < |lists| => lists[k].id)
  }

  function Ids(cards: seq<Card>): seq<Id>
  {
    seq(|cards|, k requires 0 <= k < |cards| => cards[k].id)
  }

  /** `lists.flatMap(list => list.cards)`: every card, list after list. */
  function AllCards(lists: seq<BoardList>): seq<Card>
  {
    if lists == [] then [] else AllCards(lists[..|lists| - 1]) + lists[|lists| - 1].cards
  }

  predicate Distinct(s: seq<Id>)
  {
    forall i, j :: 0 <= i < j < |s| ==> s[i] != s[j]
  }

  /** Every id on the board, list ids first. */
  function BoardIds(lists: seq<BoardList>): seq<Id>
  {
    ListIds(lists) + Ids(AllCards(lists))
  }

  /**
   * The boards the database can produce. List ids and card ids are unique
   * keys of their tables, and the generated ids are also never shared
   * between the two tables, so no id occurs twice on a board; hence every
   * card sits in exactly one list.
   */
  predicate WellFormed(b: Board)
  {
    Distinct(BoardIds(b.lists))
  }

  // ---------------------------------------------------------------------------
  // Drag over (handleDragOver)
  // ---------------------------------------------------------------------------

  /** `lists.find(l => l.id === overId) || lists.find(l => l.cards.some(c => c.id === overId))` */
  function OverListIndex(lists: seq<BoardList>, overId: Id): (r: int)
    ensures -1 <= r < |lists|
    ensures r == -1 <==> forall k :: 0 <= k < |lists| ==> lists[k].id != overId && !Holds(lists[k], overId)
    ensures r != -1 ==> lists[r].id == overId || Holds(lists[r], overId)
    ensures (exists k :: 0 <= k < |lists| && lists[k].id == overId) ==> r != -1 && lists[r].id == overId
  {
    var byId := FindIndex(lists, (l: BoardList) => l.id == overId);
    if byId != -1 then byId else FindIndex(lists, (l: BoardList) => Holds(l, overId))
  }

  /**
   * The board after the pointer, dragging card `activeId`, hovers over the
   * drop target `over` (a list id or a card id; None when over nothing).
   */
  function DragOver(b: Board, activeId: Id, over: Option<Id>): (r: Board)
    ensures r.id == b.id && r.title == b.title
    ensures ListIds(r.lists) == ListIds(b.lists)
    ensures over.None? ==> r == b
  {
    if over.None? then b
    else
      var overId := over.value;
      var a := FindIndex(b.lists, (l: BoardList) => Holds(l, activeId));
      if a == -1 then b
      else
        var o := OverListIndex(b.lists, overId);
        if o == -1 then b
        else
          var activeList, overList := b.lists[a], b.lists[o];
          if activeList.id == overList.id then
            var oldIndex := IndexOfCard(activeList.cards, activeId);
            var newIndex := IndexOfCard(activeList.cards, overId);
            if oldIndex != -1 && newIndex != -1 then
              b.(lists := WithCards(b.lists, activeList.id, ArrayMove(activeList.cards, oldIndex, newIndex)))
            else b
          else
            var activeCards := Without(activeList.cards, activeId);
            var card := activeList.cards[IndexOfCard(activeList.cards, activeId)];
            var overIndex := IndexOfCard(overList.cards, overId);
            var newOverCards :=
              if overIndex != -1 then InsertAt(overList.cards, overIndex, card)
              else overList.cards + [card];
            b.(lists := WithCards2(b.lists, activeList.id, activeCards, overList.id, newOverCards))
  }

  // ---------------------------------------------------------------------------
  // Drag end (handleDragEnd): the bulk reorder payload
  // ---------------------------------------------------------------------------

  /** The entries one list contributes: each card with its 0-based index. */
  function ListPositions(l: BoardList): seq<CardPosition>
  {
    seq(|l.cards|, k requires 0 <= k < |l.cards| => CardPosition(l.cards[k].id, l.id, k))
  }

  /** The payload of the drop: every list in board order, every card in list order. */
  function Positions(lists: seq<BoardList>): (r: seq<CardPosition>)
    ensures |r| == |AllCards(lists)|
  {
    if lists == [] then [] else Positions(lists[..|lists| - 1]) + ListPositions(lists[|lists| - 1])
  }

  /** The orders a payload gives to the cards of list `listId`, in payload order. */
  function OrdersFor(p: seq<CardPosition>, listId: Id): seq<int>
  {
    if p == [] then []
    else OrdersFor(p[..|p| - 1], listId) + (if p[|p| - 1].listId == listId then [p[|p| - 1].order] else [])
  }

  /** 0, 1, ..., n - 1 */
  function Range(n: nat): seq<int>
  {
    seq(n, k requires 0 <= k < n => k)
  }
}
