/**
 * What the reorder engine guarantees: the shape of each kind of hover, that
 * no hover loses, duplicates or renames anything, and that the payload of a
 * drop numbers the cards of every list 0, 1, ..., n - 1.
 */
module ReorderLemmas {
  import opened Store
  import opened Reorder

  // ---------------------------------------------------------------------------
  // The flattened board
  // ---------------------------------------------------------------------------

  lemma {:induction false} AllCardsAppend(xs: seq<BoardList>, ys: seq<BoardList>)
    ensures AllCards(xs + ys) == AllCards(xs) + AllCards(ys)
    decreases |ys|
  {
    if ys == [] {
      assert xs + ys == xs;
    } else {
      var init := ys[..|ys| - 1];
      var zs := xs + ys;
      assert zs[..|zs| - 1] == xs + init;
      assert zs[|zs| - 1] == ys[|ys| - 1];
      AllCardsAppend(xs, init);
    }
  }

  lemma AllCardsSplit(lists: seq<BoardList>, i: nat)
    requires i < |lists|
    ensures AllCards(lists) == AllCards(lists[..i]) + lists[i].cards + AllCards(lists[i + 1..])
  {
    var pre, mid, post := lists[..i], [lists[i]], lists[i + 1..];
    SplitAround(lists, i);
    AllCardsAppend(pre + mid, post);
    AllCardsAppend(pre, mid);
    AllCardsSingle(lists[i]);
  }

  lemma SplitAround<T>(s: seq<T>, i: nat)
    requires i < |s|
    ensures s == s[..i] + [s[i]] + s[i + 1..]
  {
  }

  lemma AllCardsSingle(l: BoardList)
    ensures AllCards([l]) == l.cards
  {
    assert [l][..0] == [];
  }

  /** The number of cards in the lists before list `a`. */
  function Offset(lists: seq<BoardList>, a: nat): nat
    requires a <= |lists|
  {
    |AllCards(lists[..a])|
  }

  lemma CardAt(lists: seq<BoardList>, a: nat, j: nat)
    requires a < |lists| && j < |lists[a].cards|
    ensures Offset(lists, a) + j < |AllCards(lists)|
    ensures AllCards(lists)[Offset(lists, a) + j] == lists[a].cards[j]
  {
    AllCardsSplit(lists, a);
  }

  lemma OffsetsIncrease(lists: seq<BoardList>, a: nat, o: nat)
    requires a < o <= |lists|
    ensures Offset(lists, a) + |lists[a].cards| <= Offset(lists, o)
  {
    var pre := lists[..o];
    AllCardsSplit(pre, a);
    assert pre[..a] == lists[..a];
  }

  // ---------------------------------------------------------------------------
  // What a well-formed board implies
  // ---------------------------------------------------------------------------

  lemma WfListIds(lists: seq<BoardList>)
    requires Distinct(BoardIds(lists))
    ensures Distinct(ListIds(lists))
  {
    var s := BoardIds(lists);
    forall i, j | 0 <= i < j < |lists| ensures ListIds(lists)[i] != ListIds(lists)[j] {
      assert s[i] == ListIds(lists)[i] && s[j] == ListIds(lists)[j];
    }
  }

  /** Two cards at different places on the board have different ids. */
  lemma WfCardsDiffer(lists: seq<BoardList>, a: nat, i: nat, o: nat, j: nat)
    requires Distinct(BoardIds(lists))
    requires a < |lists| && i < |lists[a].cards|
    requires o < |lists| && j < |lists[o].cards|
    requires a != o || i != j
    ensures lists[a].cards[i].id != lists[o].cards[j].id
  {
    CardAt(lists, a, i);
    CardAt(lists, o, j);
    var p, q := Offset(lists, a) + i, Offset(lists, o) + j;
    if a < o {
      OffsetsIncrease(lists, a, o);
    } else if o < a {
      OffsetsIncrease(lists, o, a);
    }
    assert p != q;
    var s := BoardIds(lists);
    var n := |lists|;
    assert s[n + p] == lists[a].cards[i].id;
    assert s[n + q] == lists[o].cards[j].id;
  }

  /** No card id is also a list id. */
  lemma WfNotAListId(lists: seq<BoardList>, a: nat, i: nat, k: nat)
    requires Distinct(BoardIds(lists))
    requires a < |lists| && i < |lists[a].cards| && k < |lists|
    ensures lists[k].id != lists[a].cards[i].id
  {
    CardAt(lists, a, i);
    var s := BoardIds(lists);
    assert s[k] == lists[k].id;
    assert s[|lists| + Offset(lists, a) + i] == lists[a].cards[i].id;
  }

  lemma WfWithinList(lists: seq<BoardList>, a: nat)
    requires Distinct(BoardIds(lists))
    requires a < |lists|
    ensures Distinct(Ids(lists[a].cards))
  {
    forall i, j | 0 <= i < j < |lists[a].cards|
      ensures Ids(lists[a].cards)[i] != Ids(lists[a].cards)[j]
    {
      WfCardsDiffer(lists, a, i, a, j);
    }
  }

  /** The list found for a card id is the one list that holds it. */
  lemma HomeOf(lists: seq<BoardList>, a: nat, i: nat)
    requires Distinct(BoardIds(lists))
    requires a < |lists| && i < |lists[a].cards|
    ensures FindIndex(lists, (l: BoardList) => Holds(l, lists[a].cards[i].id)) == a
    ensures FindIndex(lists, (l: BoardList) => l.id == lists[a].cards[i].id) == -1
    ensures OverListIndex(lists, lists[a].cards[i].id) == a
  {
    var x := lists[a].cards[i].id;
    var r := FindIndex(lists, (l: BoardList) => Holds(l, x));
    assert Holds(lists[a], x);
    if r != a {
      var j :| 0 <= j < |lists[r].cards| && lists[r].cards[j].id == x;
      WfCardsDiffer(lists, a, i, r, j);
    }
    forall k | 0 <= k < |lists| ensures lists[k].id != x {
      WfNotAListId(lists, a, i, k);
    }
  }

  /** In a list without repeated ids, the index found for a card's id is its own. */
  lemma IndexOfOwn(cards: seq<Card>, i: nat)
    requires Distinct(Ids(cards)) && i < |cards|
    ensures IndexOfCard(cards, cards[i].id) == i
  {
    var x := cards[i].id;
    var p := (c: Card) => c.id == x;
    assert p(cards[i]);
    var r := FindIndex(cards, p);
    assert r == IndexOfCard(cards, x);
    assert Ids(cards)[r] == cards[r].id && Ids(cards)[i] == cards[i].id;
  }

  lemma ListIndexOfId(lists: seq<BoardList>, a: nat)
    requires Distinct(ListIds(lists)) && a < |lists|
    ensures FindIndex(lists, (l: BoardList) => l.id == lists[a].id) == a
    ensures OverListIndex(lists, lists[a].id) == a
  {
    var x := lists[a].id;
    var p := (l: BoardList) => l.id == x;
    assert p(lists[a]);
    var r := FindIndex(lists, p);
    assert ListIds(lists)[r] == lists[r].id && ListIds(lists)[a] == lists[a].id;
  }

  lemma WithCardsIsUpdate(lists: seq<BoardList>, a: nat, cards: seq<Card>)
    requires Distinct(ListIds(lists)) && a < |lists|
    ensures WithCards(lists, lists[a].id, cards) == lists[a := lists[a].(cards := cards)]
  {
    forall k | 0 <= k < |lists| && k != a ensures lists[k].id != lists[a].id {
      assert ListIds(lists)[k] != ListIds(lists)[a];
    }
  }

  lemma WithCards2IsUpdate(lists: seq<BoardList>, a: nat, ac: seq<Card>, o: nat, oc: seq<Card>)
    requires Distinct(ListIds(lists)) && a < |lists| && o < |lists| && a != o
    ensures WithCards2(lists, lists[a].id, ac, lists[o].id, oc)
         == lists[a := lists[a].(cards := ac)][o := lists[o].(cards := oc)]
  {
    forall k | 0 <= k < |lists| ensures (lists[k].id == lists[a].id <==> k == a) && (lists[k].id == lists[o].id <==> k == o) {
      assert ListIds(lists)[k] == lists[k].id;
      assert ListIds(lists)[a] == lists[a].id && ListIds(lists)[o] == lists[o].id;
    }
  }

  /** Filtering out an id that occurs once removes just that card, keeping the order of the rest. */
  lemma {:induction false} WithoutOne(cards: seq<Card>, i: nat)
    requires Distinct(Ids(cards)) && i < |cards|
    ensures Without(cards, cards[i].id) == RemoveAt(cards, i)
    decreases |cards|
  {
    var id := cards[i].id;
    var tail := cards[1..];
    assert Distinct(Ids(tail)) by {
      forall p, q | 0 <= p < q < |tail| ensures Ids(tail)[p] != Ids(tail)[q] {
        assert Ids(cards)[p + 1] != Ids(cards)[q + 1];
      }
    }
    if i == 0 {
      assert Without(cards, id) == Without(tail, id);
      forall k | 0 <= k < |tail| ensures tail[k].id != id {
        assert Ids(cards)[0] != Ids(cards)[k + 1];
      }
      WithoutNone(tail, id);
    } else {
      assert cards[0].id != id by { assert Ids(cards)[0] != Ids(cards)[i]; }
      WithoutOne(tail, i - 1);
      assert RemoveAt(cards, i) == [cards[0]] + RemoveAt(tail, i - 1);
    }
  }

  lemma {:induction false} WithoutNone(cards: seq<Card>, id: Id)
    requires forall k :: 0 <= k < |cards| ==> cards[k].id != id
    ensures Without(cards, id) == cards
    decreases |cards|
  {
    if cards != [] {
      WithoutNone(cards[1..], id);
      assert cards == [cards[0]] + cards[1..];
    }
  }

  // ---------------------------------------------------------------------------
  // Multisets of cards and of ids
  // ---------------------------------------------------------------------------

  lemma AllCardsUpdate(lists: seq<BoardList>, i: nat, cards: seq<Card>)
    requires i < |lists|
    ensures multiset(AllCards(lists[i := lists[i].(cards := cards)])) + multiset(lists[i].cards)
         == multiset(AllCards(lists)) + multiset(cards)
  {
    var lists' := lists[i := lists[i].(cards := cards)];
    AllCardsSplit(lists, i);
    AllCardsSplit(lists', i);
    assert lists'[..i] == lists[..i] && lists'[i + 1..] == lists[i + 1..];
  }

  lemma {:induction false} IdsRespectMultiset(s: seq<Card>, t: seq<Card>)
    requires multiset(s) == multiset(t)
    ensures multiset(Ids(s)) == multiset(Ids(t))
    decreases |s|
  {
    if s == [] {
      assert |t| == |multiset(t)| == 0;
    } else {
      var x := s[0];
      assert x in multiset(t);
      var k :| 0 <= k < |t| && t[k] == x;
      RemoveAtMultiset(s, 0);
      RemoveAtMultiset(t, k);
      assert multiset(RemoveAt(s, 0)) == multiset(s) - multiset{x};
      assert multiset(RemoveAt(t, k)) == multiset(t) - multiset{x};
      IdsRespectMultiset(RemoveAt(s, 0), RemoveAt(t, k));
      IdsRemoveAt(s, 0);
      IdsRemoveAt(t, k);
      RemoveAtMultiset(Ids(s), 0);
      RemoveAtMultiset(Ids(t), k);
    }
  }

  lemma IdsRemoveAt(s: seq<Card>, i: nat)
    requires i < |s|
    ensures Ids(RemoveAt(s, i)) == RemoveAt(Ids(s), i)
  {
  }

  lemma {:induction false} DistinctCount(s: seq<Id>, x: Id)
    requires Distinct(s)
    ensures multiset(s)[x] <= 1
    decreases |s|
  {
    if s != [] {
      assert s == [s[0]] + s[1..];
      DistinctCount(s[1..], x);
      if s[0] == x {
        assert x !in s[1..];
      }
    }
  }

  lemma DistinctMultiset(s: seq<Id>, t: seq<Id>)
    requires multiset(s) == multiset(t) && Distinct(s)
    ensures Distinct(t)
  {
    if !Distinct(t) {
      var i, j :| 0 <= i < j < |t| && t[i] == t[j];
      assert t == t[..j] + t[j..];
      assert t[i] in t[..j] && t[j] in t[j..];
      assert multiset(t)[t[i]] == multiset(t[..j])[t[i]] + multiset(t[j..])[t[i]];
      DistinctCount(s, t[i]);
    }
  }

  // ---------------------------------------------------------------------------
  // The hovers, case by case
  // ---------------------------------------------------------------------------

  /**
   * Hovering card i of list a over card j of the same list moves card i to
   * position j of that list (arrayMove) and leaves every other list alone.
   */
  lemma SameListHover(b: Board, a: nat, i: nat, j: nat)
    requires WellFormed(b)
    requires a < |b.lists| && i < |b.lists[a].cards| && j < |b.lists[a].cards|
    ensures var cards := b.lists[a].cards;
            DragOver(b, cards[i].id, Some(cards[j].id))
            == b.(lists := b.lists[a := b.lists[a].(cards := ArrayMove(cards, i, j))])
  {
    var lists := b.lists;
    var cards := lists[a].cards;
    HomeOf(lists, a, i);
    HomeOf(lists, a, j);
    WfWithinList(lists, a);
    IndexOfOwn(cards, i);
    IndexOfOwn(cards, j);
    WfListIds(lists);
    WithCardsIsUpdate(lists, a, ArrayMove(cards, i, j));
  }

  /** Hovering a card over itself changes nothing. */
  lemma SelfHover(b: Board, a: nat, i: nat)
    requires WellFormed(b)
    requires a < |b.lists| && i < |b.lists[a].cards|
    ensures DragOver(b, b.lists[a].cards[i].id, Some(b.lists[a].cards[i].id)) == b
  {
    SameListHover(b, a, i, i);
    assert b.lists[a := b.lists[a]] == b.lists;
  }

  /**
   * Hovering a card over its own list's container finds no card with the
   * list's id in that list, so nothing changes.
   */
  lemma OwnContainerHover(b: Board, a: nat, i: nat)
    requires WellFormed(b)
    requires a < |b.lists| && i < |b.lists[a].cards|
    ensures DragOver(b, b.lists[a].cards[i].id, Some(b.lists[a].id)) == b
  {
    var lists := b.lists;
    HomeOf(lists, a, i);
    WfListIds(lists);
    ListIndexOfId(lists, a);
    forall k | 0 <= k < |lists[a].cards| ensures lists[a].cards[k].id != lists[a].id {
      WfNotAListId(lists, a, k, a);
    }
  }

  /**
   * Hovering card i of list a over list o (its container, or one of its
   * cards) with o != a: the card leaves list a, the rest of which keeps its
   * order, and enters list o just before the hovered card, or at the end
   * when the container itself is hovered. No other list changes.
   */
  lemma CrossListHover(b: Board, a: nat, i: nat, o: nat, overId: Id)
    requires WellFormed(b)
    requires a < |b.lists| && i < |b.lists[a].cards| && o < |b.lists| && a != o
    requires overId == b.lists[o].id || Holds(b.lists[o], overId)
    ensures var card := b.lists[a].cards[i];
            var target := b.lists[o].cards;
            var at := IndexOfCard(target, overId);
            && (overId == b.lists[o].id ==> at == -1)
            && (Holds(b.lists[o], overId) ==> at != -1 && target[at].id == overId)
            && DragOver(b, card.id, Some(overId))
               == b.(lists := b.lists[a := b.lists[a].(cards := RemoveAt(b.lists[a].cards, i))]
                                     [o := b.lists[o].(cards := if at == -1 then target + [card]
                                                               else InsertAt(target, at, card))])
  {
    var lists := b.lists;
    var card := lists[a].cards[i];
    HomeOf(lists, a, i);
    WfListIds(lists);
    WfWithinList(lists, a);
    IndexOfOwn(lists[a].cards, i);
    WithoutOne(lists[a].cards, i);
    OverTarget(b, o, overId);
    assert lists[a].id != lists[o].id by { assert ListIds(lists)[a] != ListIds(lists)[o]; }
    var target := lists[o].cards;
    var at := IndexOfCard(target, overId);
    WithCards2IsUpdate(lists, a, RemoveAt(lists[a].cards, i), o,
      if at == -1 then target + [card] else InsertAt(target, at, card));
  }

  /** The list the pointer is over, and where in it the dragged card goes. */
  lemma OverTarget(b: Board, o: nat, overId: Id)
    requires WellFormed(b) && o < |b.lists|
    requires overId == b.lists[o].id || Holds(b.lists[o], overId)
    ensures OverListIndex(b.lists, overId) == o
    ensures var at := IndexOfCard(b.lists[o].cards, overId);
            && (overId == b.lists[o].id ==> at == -1)
            && (Holds(b.lists[o], overId) ==> at != -1 && b.lists[o].cards[at].id == overId)
  {
    var lists := b.lists;
    WfListIds(lists);
    if overId == lists[o].id {
      ListIndexOfId(lists, o);
      forall k | 0 <= k < |lists[o].cards| ensures lists[o].cards[k].id != overId {
        WfNotAListId(lists, o, k, o);
      }
    } else {
      var j :| 0 <= j < |lists[o].cards| && lists[o].cards[j].id == overId;
      HomeOf(lists, o, j);
    }
  }

  /** Same list ids and the same cards: the board stays well formed. */
  lemma KeepsWellFormed(b: Board, b': Board)
    requires WellFormed(b)
    requires ListIds(b'.lists) == ListIds(b.lists)
    requires multiset(AllCards(b'.lists)) == multiset(AllCards(b.lists))
    ensures WellFormed(b')
  {
    IdsRespectMultiset(AllCards(b'.lists), AllCards(b.lists));
    assert multiset(BoardIds(b'.lists)) == multiset(BoardIds(b.lists));
    DistinctMultiset(BoardIds(b.lists), BoardIds(b'.lists));
  }

  lemma ReplaceKeepsListIds(lists: seq<BoardList>, a: nat, cards: seq<Card>)
    requires a < |lists|
    ensures ListIds(lists[a := lists[a].(cards := cards)]) == ListIds(lists)
  {
  }

  lemma MoveAcrossKeepsCards(lists: seq<BoardList>, a: nat, i: nat, o: nat, oc: seq<Card>)
    requires a < |lists| && i < |lists[a].cards| && o < |lists| && a != o
    requires multiset(oc) == multiset(lists[o].cards) + multiset{lists[a].cards[i]}
    ensures var mid := lists[a := lists[a].(cards := RemoveAt(lists[a].cards, i))];
            multiset(AllCards(mid[o := mid[o].(cards := oc)])) == multiset(AllCards(lists))
  {
    var ac := lists[a].cards;
    var card := ac[i];
    var mid := lists[a := lists[a].(cards := RemoveAt(ac, i))];
    var last := mid[o := mid[o].(cards := oc)];
    AllCardsUpdate(lists, a, RemoveAt(ac, i));
    AllCardsUpdate(mid, o, oc);
    RemoveAtMultiset(ac, i);
    assert mid[o] == lists[o];
    MultisetCancel(multiset(AllCards(lists)), multiset(AllCards(mid)), multiset(AllCards(last)),
      multiset(ac), multiset(RemoveAt(ac, i)), multiset(lists[o].cards), multiset(oc), card);
  }

  /** Taking c out of one part and adding it to another leaves the whole unchanged. */
  lemma MultisetCancel<T>(m0: multiset<T>, m1: multiset<T>, m2: multiset<T>,
                          a: multiset<T>, a': multiset<T>, b: multiset<T>, b': multiset<T>, c: T)
    requires m1 + a == m0 + a' && a == a' + multiset{c}
    requires m2 + b == m1 + b' && b' == b + multiset{c}
    ensures m2 == m0
  {
    forall y ensures m2[y] == m0[y] {
      assert (m1 + a)[y] == (m0 + a')[y];
      assert (m2 + b)[y] == (m1 + b')[y];
    }
  }

  lemma RemoveAtMultiset<T>(s: seq<T>, i: nat)
    requires i < |s|
    ensures multiset(s) == multiset(RemoveAt(s, i)) + multiset{s[i]}
  {
    SplitAround(s, i);
  }

  lemma InsertAdds(target: seq<Card>, at: int, card: Card)
    requires -1 <= at < |target|
    ensures var oc := if at == -1 then target + [card] else InsertAt(target, at, card);
            multiset(oc) == multiset(target) + multiset{card}
  {
    if at != -1 {
      assert target == target[..at] + target[at..];
    }
  }

  lemma SameListPreserves(b: Board, a: nat, i: nat, j: nat)
    requires WellFormed(b)
    requires a < |b.lists| && i < |b.lists[a].cards| && j < |b.lists[a].cards|
    ensures var b' := DragOver(b, b.lists[a].cards[i].id, Some(b.lists[a].cards[j].id));
            && ListIds(b'.lists) == ListIds(b.lists)
            && multiset(AllCards(b'.lists)) == multiset(AllCards(b.lists))
  {
    var moved := ArrayMove(b.lists[a].cards, i, j);
    var lists' := b.lists[a := b.lists[a].(cards := moved)];
    SameListHover(b, a, i, j);
    AllCardsUpdate(b.lists, a, moved);
    Cancel(multiset(AllCards(lists')), multiset(AllCards(b.lists)), multiset(moved));
    ReplaceKeepsListIds(b.lists, a, moved);
  }

  lemma Cancel<T>(m: multiset<T>, n: multiset<T>, x: multiset<T>)
    requires m + x == n + x
    ensures m == n
  {
    forall y ensures m[y] == n[y] {
      assert (m + x)[y] == (n + x)[y];
    }
  }

  lemma CrossListPreserves(b: Board, a: nat, i: nat, o: nat, overId: Id)
    requires WellFormed(b)
    requires a < |b.lists| && i < |b.lists[a].cards| && o < |b.lists| && a != o
    requires overId == b.lists[o].id || Holds(b.lists[o], overId)
    ensures var b' := DragOver(b, b.lists[a].cards[i].id, Some(overId));
            && ListIds(b'.lists) == ListIds(b.lists)
            && multiset(AllCards(b'.lists)) == multiset(AllCards(b.lists))
  {
    var lists := b.lists;
    var target := lists[o].cards;
    var at := IndexOfCard(target, overId);
    var card := lists[a].cards[i];
    CrossListHover(b, a, i, o, overId);
    InsertAdds(target, at, card);
    var oc := if at == -1 then target + [card] else InsertAt(target, at, card);
    MoveAcrossKeepsCards(lists, a, i, o, oc);
    var mid := lists[a := lists[a].(cards := RemoveAt(lists[a].cards, i))];
    ReplaceKeepsListIds(lists, a, mid[a].cards);
    ReplaceKeepsListIds(mid, o, oc);
  }

  lemma FoundCardIndex(l: BoardList, id: Id)
    requires Holds(l, id)
    ensures IndexOfCard(l.cards, id) != -1
  {
    var k :| 0 <= k < |l.cards| && l.cards[k].id == id;
    var p := (c: Card) => c.id == id;
    assert p(l.cards[k]);
  }

  /**
   * Whatever the hover, the board keeps its list ids in the same order and
   * the same cards (as a multiset), so it stays well formed: every card is
   * still in exactly one list.
   */
  lemma DragOverPreserves(b: Board, activeId: Id, over: Option<Id>)
    requires WellFormed(b)
    ensures var b' := DragOver(b, activeId, over);
            && b'.id == b.id && b'.title == b.title
            && ListIds(b'.lists) == ListIds(b.lists)
            && multiset(AllCards(b'.lists)) == multiset(AllCards(b.lists))
            && WellFormed(b')
  {
    var lists := b.lists;
    if over.Some? {
      var overId := over.value;
      var a := FindIndex(lists, (l: BoardList) => Holds(l, activeId));
      var o := OverListIndex(lists, overId);
      if a != -1 && o != -1 {
        FoundCardIndex(lists[a], activeId);
        var i := IndexOfCard(lists[a].cards, activeId);
        if lists[a].id == lists[o].id {
          var j := IndexOfCard(lists[a].cards, overId);
          if j != -1 {
            SameListPreserves(b, a, i, j);
          }
        } else {
          CrossListPreserves(b, a, i, o, overId);
        }
      }
    }
    KeepsWellFormed(b, DragOver(b, activeId, over));
  }

  // ---------------------------------------------------------------------------
  // The drop payload
  // ---------------------------------------------------------------------------

  lemma {:induction false} PositionsAppend(xs: seq<BoardList>, ys: seq<BoardList>)
    ensures Positions(xs + ys) == Positions(xs) + Positions(ys)
    decreases |ys|
  {
    if ys == [] {
      assert xs + ys == xs;
    } else {
      var init := ys[..|ys| - 1];
      var zs, last := xs + ys, ys[|ys| - 1];
      assert zs[..|zs| - 1] == xs + init;
      assert zs[|zs| - 1] == last;
      PositionsAppend(xs, init);
      assert Positions(zs) == Positions(xs + init) + ListPositions(last);
      assert Positions(ys) == Positions(init) + ListPositions(last);
    }
  }

  /** The payload names every card of the board once, in board order. */
  lemma {:induction false} PositionsFollowCards(lists: seq<BoardList>)
    ensures |Positions(lists)| == |AllCards(lists)|
    ensures forall k :: 0 <= k < |AllCards(lists)| ==> Positions(lists)[k].id == AllCards(lists)[k].id
    decreases |lists|
  {
    if lists != [] {
      PositionsFollowCards(lists[..|lists| - 1]);
    }
  }

  /**
   * Card j of list a appears in the payload at its place in board order,
   * with the id of the list that holds it and its index in that list.
   */
  lemma PositionOfCard(lists: seq<BoardList>, a: nat, j: nat)
    requires a < |lists| && j < |lists[a].cards|
    ensures Offset(lists, a) + j < |Positions(lists)|
    ensures Positions(lists)[Offset(lists, a) + j] == CardPosition(lists[a].cards[j].id, lists[a].id, j)
  {
    PositionsSplit(lists, a);
    PositionsFollowCards(lists[..a]);
  }

  lemma PositionsSplit(lists: seq<BoardList>, a: nat)
    requires a < |lists|
    ensures Positions(lists) == Positions(lists[..a]) + ListPositions(lists[a]) + Positions(lists[a + 1..])
  {
    SplitAround(lists, a);
    PositionsAppend(lists[..a] + [lists[a]], lists[a + 1..]);
    PositionsAppend(lists[..a], [lists[a]]);
    PositionsOfOne(lists[a]);
  }

  lemma {:induction false} OrdersForAppend(p: seq<CardPosition>, q: seq<CardPosition>, listId: Id)
    ensures OrdersFor(p + q, listId) == OrdersFor(p, listId) + OrdersFor(q, listId)
    decreases |q|
  {
    if q == [] {
      assert p + q == p;
    } else {
      assert (p + q)[..|p + q| - 1] == p + q[..|q| - 1];
      OrdersForAppend(p, q[..|q| - 1], listId);
    }
  }

  lemma {:induction false} OrdersForList(l: BoardList, listId: Id, n: nat)
    requires n <= |l.cards|
    ensures OrdersFor(ListPositions(l)[..n], listId) == if l.id == listId then Range(n) else []
    decreases n
  {
    if n > 0 {
      assert ListPositions(l)[..n][..n - 1] == ListPositions(l)[..n - 1];
      OrdersForList(l, listId, n - 1);
      assert Range(n) == Range(n - 1) + [n - 1];
    }
  }

  lemma {:induction false} OrdersForAbsent(lists: seq<BoardList>, listId: Id)
    requires forall k :: 0 <= k < |lists| ==> lists[k].id != listId
    ensures OrdersFor(Positions(lists), listId) == []
    decreases |lists|
  {
    if lists != [] {
      var init, last := lists[..|lists| - 1], lists[|lists| - 1];
      OrdersForAbsent(init, listId);
      OrdersForAppend(Positions(init), ListPositions(last), listId);
      OrdersForList(last, listId, |last.cards|);
      assert ListPositions(last)[..|last.cards|] == ListPositions(last);
    }
  }

  lemma OrdersForLast(lists: seq<BoardList>, id: Id)
    requires lists != []
    ensures var init, last := lists[..|lists| - 1], lists[|lists| - 1];
            OrdersFor(Positions(lists), id)
            == OrdersFor(Positions(init), id) + (if last.id == id then Range(|last.cards|) else [])
  {
    var init, last := lists[..|lists| - 1], lists[|lists| - 1];
    OrdersForAppend(Positions(init), ListPositions(last), id);
    OrdersForList(last, id, |last.cards|);
    assert ListPositions(last)[..|last.cards|] == ListPositions(last);
  }

  lemma DistinctInit(lists: seq<BoardList>)
    requires lists != [] && Distinct(ListIds(lists))
    ensures Distinct(ListIds(lists[..|lists| - 1]))
    ensures forall k :: 0 <= k < |lists| - 1 ==> lists[k].id != lists[|lists| - 1].id
  {
    var init := lists[..|lists| - 1];
    forall p, q | 0 <= p < q < |init| ensures ListIds(init)[p] != ListIds(init)[q] {
      assert ListIds(lists)[p] != ListIds(lists)[q];
    }
    forall k | 0 <= k < |lists| - 1 ensures lists[k].id != lists[|lists| - 1].id {
      assert ListIds(lists)[k] != ListIds(lists)[|lists| - 1];
    }
  }

  /**
   * After a drop, the orders sent for the cards of any list are exactly
   * 0, 1, ..., n - 1 in the list's visual order: no gaps, no repeats.
   */
  lemma {:induction false} OrdersAreRanks(lists: seq<BoardList>, a: nat)
    requires Distinct(ListIds(lists)) && a < |lists|
    ensures OrdersFor(Positions(lists), lists[a].id) == Range(|lists[a].cards|)
    decreases |lists|
  {
    var init := lists[..|lists| - 1];
    var id := lists[a].id;
    OrdersForLast(lists, id);
    DistinctInit(lists);
    if a == |lists| - 1 {
      OrdersForAbsent(init, id);
    } else {
      OrdersAreRanks(init, a);
    }
  }

  // ---------------------------------------------------------------------------
  // Scenarios
  // ---------------------------------------------------------------------------

  lemma PositionsOfOne(l: BoardList)
    ensures Positions([l]) == ListPositions(l)
  {
    assert [l][..0] == [];
  }

  lemma PositionsOfTwo(l1: BoardList, l2: BoardList)
    ensures Positions([l1, l2]) == ListPositions(l1) + ListPositions(l2)
  {
    PositionsOfOne(l1);
    assert [l1, l2][..1] == [l1];
  }

  lemma SwapBoardWellFormed(board: Board, a: Card, b: Card, l: BoardList)
    requires l.cards == [a, b] && board.lists == [l]
    requires a.id != b.id && l.id != a.id && l.id != b.id
    ensures WellFormed(board)
  {
    AllCardsSingle(l);
    assert Ids([a, b]) == [a.id, b.id];
    assert BoardIds(board.lists) == [l.id, a.id, b.id];
  }

  lemma SwapHover(board: Board, a: Card, b: Card, l: BoardList)
    requires l.cards == [a, b] && board.lists == [l]
    requires a.id != b.id && l.id != a.id && l.id != b.id
    ensures DragOver(board, a.id, Some(b.id)).lists == [l.(cards := [b, a])]
  {
    SwapBoardWellFormed(board, a, b, l);
    SameListHover(board, 0, 0, 1);
    var m := ArrayMove([a, b], 0, 1);
    assert m == [b, a] by {
      assert RemoveAt([a, b], 0) == [b];
      assert RemoveAt(m, 1) == [m[0]];
    }
  }

  /**
   * A list holds [A, B]; dragging A over B and dropping sends B -> 0, A -> 1,
   * both in that list.
   */
  lemma SwapTwoCards(board: Board, a: Card, b: Card, l: BoardList)
    requires l.cards == [a, b] && board.lists == [l]
    requires a.id != b.id && l.id != a.id && l.id != b.id
    ensures Positions(DragOver(board, a.id, Some(b.id)).lists)
            == [CardPosition(b.id, l.id, 0), CardPosition(a.id, l.id, 1)]
  {
    SwapHover(board, a, b, l);
    TwoCardPayload(l.(cards := [b, a]));
  }

  lemma TwoCardPayload(l: BoardList)
    requires |l.cards| == 2
    ensures Positions([l]) == [CardPosition(l.cards[0].id, l.id, 0), CardPosition(l.cards[1].id, l.id, 1)]
  {
    PositionsOfOne(l);
  }

  lemma MoveBoardWellFormed(board: Board, c: Card, d: Card, from: BoardList, to: BoardList)
    requires from.cards == [c, d] && to.cards == [] && board.lists == [from, to]
    requires Distinct([from.id, to.id, c.id, d.id])
    ensures WellFormed(board)
  {
    AllCardsAppend([from], [to]);
    assert board.lists == [from] + [to];
    AllCardsSingle(from);
    AllCardsSingle(to);
    assert AllCards(board.lists) == [c, d];
    assert Ids([c, d]) == [c.id, d.id];
    assert BoardIds(board.lists) == [from.id, to.id, c.id, d.id];
  }

  /**
   * Dragging C, the first card of a list [C, D], over an empty list leaves
   * [D] and [C]; the drop then sends D -> 0 in the first list and C -> 0 in
   * the second.
   */
  lemma MoveToEmptyList(board: Board, c: Card, d: Card, from: BoardList, to: BoardList)
    requires from.cards == [c, d] && to.cards == [] && board.lists == [from, to]
    requires Distinct([from.id, to.id, c.id, d.id])
    ensures var after := DragOver(board, c.id, Some(to.id));
            && after.lists == [from.(cards := [d]), to.(cards := [c])]
            && Positions(after.lists) == [CardPosition(d.id, from.id, 0), CardPosition(c.id, to.id, 0)]
  {
    MoveToEmptyHover(board, c, d, from, to);
    var from', to' := from.(cards := [d]), to.(cards := [c]);
    PositionsOfTwo(from', to');
    OneCardPositions(from', d);
    OneCardPositions(to', c);
  }

  lemma MoveToEmptyHover(board: Board, c: Card, d: Card, from: BoardList, to: BoardList)
    requires from.cards == [c, d] && to.cards == [] && board.lists == [from, to]
    requires Distinct([from.id, to.id, c.id, d.id])
    ensures DragOver(board, c.id, Some(to.id)).lists == [from.(cards := [d]), to.(cards := [c])]
  {
    MoveBoardWellFormed(board, c, d, from, to);
    CrossListHover(board, 0, 0, 1, to.id);
    assert RemoveAt([c, d], 0) == [d];
    assert to.cards + [c] == [c];
    assert [from, to][0 := from.(cards := [d])][1 := to.(cards := [c])] == [from.(cards := [d]), to.(cards := [c])];
  }

  lemma OneCardPositions(l: BoardList, c: Card)
    requires l.cards == [c]
    ensures ListPositions(l) == [CardPosition(c.id, l.id, 0)]
  {
  }
}
