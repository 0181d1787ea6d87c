/**
 * The persistent data of the board application, as the server actions and
 * API routes see it: one table per entity, each a map from record id to
 * record, plus the membership rows that link users to organizations.
 *
 * The database itself is not part of this model; `Backend` stands for it.
 * Its `Valid()` predicate states the foreign keys and the unique organization
 * slug that the database enforces, so that operations may rely on them.
 */
module Store {

  type Id = string

  datatype Option<+T> = None | Some(value: T)

  /** The authenticated caller, when a session cookie is present. */
  datatype Session = Session(userId: Id)

  datatype CardRow = CardRow(
    title: string,
    description: Option<string>,
    dueDate: Option<int>,   // a timestamp; None is a null due date
    completed: bool,
    listId: Id,
    order: int)

  datatype ListRow = ListRow(title: string, order: int, boardId: Id)

  datatype BoardRow = BoardRow(
    title: string,
    description: Option<string>,
    organizationId: Id,
    createdById: Id)

  datatype OrganizationRow = OrganizationRow(
    name: string,
    slug: string,
    description: Option<string>,
    createdById: Id)

  datatype Membership = Membership(organizationId: Id, userId: Id, role: string)

  /** One entry of the bulk card reorder request: where a card now sits. */
  datatype CardPosition = CardPosition(id: Id, listId: Id, order: int)

  /** One entry of the bulk list reorder request. */
  datatype ListOrder = ListOrder(id: Id, order: int)

  /** Why a server action fails. */
  datatype Failure =
    | Unauthorized          // no session: thrown before any read or write
    | RecordNotFound        // update or delete of an id that is not in the table
    | ForeignKeyViolation   // a write that names a parent row that does not exist

  datatype Result<+T> = Ok(value: T) | Err(failure: Failure)

  class Backend {
    var cards: map<Id, CardRow>
    var lists: map<Id, ListRow>
    var boards: map<Id, BoardRow>
    var organizations: map<Id, OrganizationRow>
    var memberships: set<Membership>
    /** Board ids whose cached view was invalidated, oldest first. */
    var invalidated: seq<Id>

    /** The constraints the database enforces on every state. */
    ghost predicate Valid()
      reads this
    {
      Consistent(cards, lists, boards, organizations, memberships)
    }

    constructor ()
      ensures Valid()
      ensures cards == map[] && lists == map[] && boards == map[]
      ensures organizations == map[] && memberships == {} && invalidated == []
    {
      cards, lists, boards := map[], map[], map[];
      organizations, memberships, invalidated := map[], {}, [];
    }
  }

  /** The foreign keys and the unique organization slug, over the tables' contents. */
  ghost predicate Consistent(cards: map<Id, CardRow>, lists: map<Id, ListRow>, boards: map<Id, BoardRow>,
                             organizations: map<Id, OrganizationRow>, memberships: set<Membership>)
  {
    && (forall c :: c in cards ==> cards[c].listId in lists)
    && (forall l :: l in lists ==> lists[l].boardId in boards)
    && (forall b :: b in boards ==> boards[b].organizationId in organizations)
    && (forall m :: m in memberships ==> m.organizationId in organizations)
    && (forall o1, o2 :: o1 in organizations && o2 in organizations && o1 != o2 ==>
          organizations[o1].slug != organizations[o2].slug)
  }

  /** `last` is the largest order in the scope. */
  ghost predicate OrderIsMax(orders: map<Id, int>, last: int)
  {
    (exists k :: k in orders && orders[k] == last) && forall k :: k in orders ==> orders[k] <= last
  }

  /**
   * The query `findFirst({ where: scope, orderBy: { order: "desc" } })`,
   * given the orders of the rows in the scope: the largest order, or None
   * when the scope is empty.
   */
  method LastOrder(orders: map<Id, int>) returns (last: Option<int>)
    ensures last.None? <==> orders == map[]
    ensures last.Some? ==> OrderIsMax(orders, last.value)
  {
    last := None;
    var todo := orders.Keys;
    while todo != {}
      invariant todo <= orders.Keys
      invariant last.None? <==> todo == orders.Keys
      invariant last.Some? ==> exists k :: k in orders && k !in todo && orders[k] == last.value
      invariant last.Some? ==> forall k :: k in orders && k !in todo ==> orders[k] <= last.value
      decreases todo
    {
      var k :| k in todo;
      if last.None? || orders[k] > last.value {
        last := Some(orders[k]);
      }
      todo := todo - {k};
    }
    if last.None? {
      assert orders.Keys == {};
      assert orders == map[];
    }
  }

  /** The append rule: one past the largest order in scope, or 0 when the scope is empty. */
  function NextOrder(last: Option<int>): (r: int)
    ensures last.None? ==> r == 0
    ensures last.Some? ==> r > last.value
  {
    if last.Some? then last.value + 1 else 0
  }
}
