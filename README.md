# TeamFlow board core, in Dafny

TeamFlow is a Kanban application. An organization owns boards, a board holds
ordered lists, and a list holds ordered cards. This project models the parts
of it that carry logic:

- **The board view** (`Canvas`, on top of `Reorder` and `ReorderLemmas`). It is
  the drag-and-drop engine of the board page. The component's state (the
  board, the dragged card, the "add a list" form) becomes the class
  `Canvas.BoardCanvas`, and each handler becomes a method.
  - `handleDragOver` rewrites the board on every hover. The pure function
    `Reorder.DragOver` specifies the rewrite.
  - `handleDragEnd` flattens the board into the bulk reorder payload,
    specified by `Reorder.Positions`.
  - `arrayMove` comes from the sortable library, so it is defined explicitly:
    take the element out, then insert it at the target index of what is left.
- **The server actions on cards and lists** (`CardActions`, `ListActions`).
  They are methods over `Store.Backend`, an in-memory stand-in for the
  database: one map per table, plus the membership rows.
  - Every action first requires a session.
  - New rows take one past the largest order in scope.
  - The bulk reorders write entry after entry. A specification function
    (`Reposition`, `SetOrders`) states the effect of the whole batch.
- **The two API routes** (`OrganizationsRoute`, `BoardsRoute`). Each one
  answers with a JSON record or an error status.
  - The organization route derives a slug from the name (`Slug.MakeSlug`) and
    makes the caller the organization's owner.
  - The board route checks the caller's membership, then creates the board and
    its three default lists.
- **The sign-up form's submit handler** (`Signup.SignupForm`). It checks the
  passwords before anything is sent, then reports how the sign-up call ended.

Supporting modules:

- `JsText` states what `trim` and `.length` mean on JavaScript strings.
- `Http` holds the route response type and the truthiness of JSON fields.

The main results:

- **Every hover keeps the board intact.** On a board with unique ids, a drag
  over keeps the sequence of list ids and the multiset of cards, and the board
  stays well formed (`DragOverPreserves`).
  - A hover within a list is `ArrayMove` on that list alone (`SameListHover`).
  - A hover onto another list removes the card from its list and inserts it
    into the target list, everything else unchanged (`CrossListHover`).
  - Hovering a card over itself, or over its own list, changes nothing
    (`SelfHover`, `OwnContainerHover`).
- **The drop payload numbers each list from zero.** It lists every card once,
  in board order, with its list and its index in that list
  (`PositionsFollowCards`, `PositionOfCard`). So each list's orders are
  exactly 0, 1, ..., n - 1 (`OrdersAreRanks`).
- **Two scenarios are proved.** Swapping the two cards of [A, B] sends
  B -> 0, A -> 1 (`SwapTwoCards`). Moving C from [C, D] to an empty list sends
  D -> 0 and C -> 0 (`MoveToEmptyList`).
- **Every base slug `MakeSlug` derives is well shaped.** It holds only a-z,
  0-9 and "-", and has no "-" at either end and no two in a row (the contract
  of `MakeSlug`). It keeps the name's letters and digits in order
  (`SlugKeepsAlnum`, `SlugOfAscii`), and it is empty exactly when the
  lower-cased name has none (`SlugEmptyIffNoAlnum`). Every run of other
  characters becomes exactly one "-" (`CollapseRun`, `CollapseSplit`), so two
  words with separators between them give the words joined by one "-"
  (`SlugOfTwoWords`). Slugifying twice gives the same slug (`SlugIdempotent`).
  The suffixed slug of a taken name is well shaped only when the base slug
  and the suffix are non-empty and well shaped (`SuffixedShape`).
- **Every database action keeps the foreign keys and the unique slug**
  (`Store.Backend.Valid`). Each one states its whole new state.

## Model

| member | source | states |
|---|---|---|
| Canvas.FindCard | src/components/board/BoardCanvas.tsx:55-57 | finds a card with the id exactly when some card of the board has it; the card found has that id and is on the board |
| Canvas.CollectPositions | src/components/board/BoardCanvas.tsx:134-144 | the nested loops build exactly the payload `Positions(lists)` |
| Canvas.BoardCanvas.constructor | src/components/board/BoardCanvas.tsx:39-42 | the view starts on the given board, with no dragged card and an empty, closed form |
| Canvas.BoardCanvas.HandleDragStart | src/components/board/BoardCanvas.tsx:53-62 | the dragged card becomes the board's card with that id; with no such card it is left as it was; the board and form are unchanged |
| Canvas.BoardCanvas.HandleDragOver | src/components/board/BoardCanvas.tsx:64-122 | the board becomes `DragOver` of the old board; a well-formed board stays well formed and keeps its list ids and its multiset of cards; the dragged card and form are unchanged |
| Canvas.BoardCanvas.HandleDragEnd | src/components/board/BoardCanvas.tsx:124-149 | the dragged card is always cleared; a request is sent exactly when there is a target; it is the board's payload, in which every list's orders are 0..n-1 on a well-formed board |
| Canvas.BoardCanvas.HandleCreateList | src/components/board/BoardCanvas.tsx:151-162 | a blank title sends nothing and changes nothing; otherwise the board id and title are sent, and a returned list is appended empty after the unchanged existing lists and the form is reset and closed |
| Reorder.FindIndex | src/components/board/BoardCanvas.tsx:86-87 | -1 exactly when no element satisfies the predicate; otherwise the first index that does |
| Reorder.ArrayMove | src/components/board/BoardCanvas.tsx:90-90 | same length and same multiset; the moved element sits at the target index; removing it there gives the input with it removed from its source index; moving to the same index changes nothing |
| Reorder.Without | src/components/board/BoardCanvas.tsx:98-98 | no card left has the id; every card left comes from the input, and every input card with another id is kept (the exact result on distinct ids is `WithoutOne`) |
| Reorder.InsertAt | src/components/board/BoardCanvas.tsx:101-108 | one longer, with the card at the insertion index; removing it there gives the input back |
| Reorder.WithCards | src/components/board/BoardCanvas.tsx:91-93 | keeps the list ids in order; lists with another id are unchanged; the list with the id gets the new cards and keeps its title |
| Reorder.WithCards2 | src/components/board/BoardCanvas.tsx:110-118 | keeps the list ids in order; the origin list gets the remaining cards, the target list the new cards, and every other list is unchanged |
| Reorder.OverListIndex | src/components/board/BoardCanvas.tsx:78-80 | -1 exactly when no list has the hovered id and none holds it; a list with that id is preferred to a list holding a card with it; otherwise the index of a list holding it |
| Reorder.DragOver | src/components/board/BoardCanvas.tsx:64-122 | keeps the board's id, title and list ids, and no target leaves the board unchanged; each branch is stated by `SameListHover`, `SelfHover`, `OwnContainerHover` and `CrossListHover`, and cards and well-formedness are kept by `DragOverPreserves` |
| Reorder.Positions | src/components/board/BoardCanvas.tsx:134-144 | one entry per card of the board; `PositionsFollowCards`, `PositionOfCard` and `OrdersAreRanks` state the order, list and index of each entry |
| ReorderLemmas.WithoutOne | src/components/board/BoardCanvas.tsx:98-98 | on distinct ids, filtering out a card's id removes exactly that card and keeps the order of the rest |
| ReorderLemmas.HomeOf | src/components/board/BoardCanvas.tsx:72-80 | on a well-formed board, the list found for a card is the one that holds it, and no list has the card's id |
| ReorderLemmas.ListIndexOfId | src/components/board/BoardCanvas.tsx:78-80 | with distinct list ids, a list id is found as that list |
| ReorderLemmas.OverTarget | src/components/board/BoardCanvas.tsx:78-102 | over a list id or a card of a list, the target is that list; over the list itself no card index is found; over a card, that card's index is found |
| ReorderLemmas.WithCardsIsUpdate | src/components/board/BoardCanvas.tsx:91-93 | with distinct list ids, the rebuild replaces the cards of that one list and keeps every other list |
| ReorderLemmas.WithCards2IsUpdate | src/components/board/BoardCanvas.tsx:110-118 | with distinct list ids, the two-list rebuild replaces the cards of the origin and the target lists and keeps every other list |
| ReorderLemmas.SameListHover | src/components/board/BoardCanvas.tsx:84-95 | hovering a card over another card of its own list applies ArrayMove from the card's index to the hovered index, to that list only |
| ReorderLemmas.SelfHover | src/components/board/BoardCanvas.tsx:86-89 | hovering a card over itself leaves the board unchanged |
| ReorderLemmas.OwnContainerHover | src/components/board/BoardCanvas.tsx:86-89 | hovering a card over its own list leaves the board unchanged |
| ReorderLemmas.CrossListHover | src/components/board/BoardCanvas.tsx:97-120 | hovering onto another list removes the card from its list, keeping the others in order; it inserts the card before the hovered card, or appends it when the list itself is hovered; all other lists are unchanged |
| ReorderLemmas.SameListPreserves | src/components/board/BoardCanvas.tsx:84-95 | a same-list hover keeps the list ids and the multiset of cards |
| ReorderLemmas.CrossListPreserves | src/components/board/BoardCanvas.tsx:97-120 | a cross-list hover keeps the list ids and the multiset of cards |
| ReorderLemmas.DragOverPreserves | src/components/board/BoardCanvas.tsx:64-122 | on a well-formed board, every drag over keeps the board id, title, list ids and multiset of cards, and the board stays well formed, so every card is in exactly one list |
| ReorderLemmas.KeepsWellFormed | src/components/board/BoardCanvas.tsx:90-118 | the same list ids and the same cards keep the board free of duplicate ids |
| ReorderLemmas.PositionsFollowCards | src/components/board/BoardCanvas.tsx:136-144 | the payload has one entry per card of the board, with the card ids in board order |
| ReorderLemmas.PositionOfCard | src/components/board/BoardCanvas.tsx:136-144 | the entry for the j-th card of list a names that card, list a and order j |
| ReorderLemmas.PositionsSplit | src/components/board/BoardCanvas.tsx:136-144 | the payload is the entries of the lists before a, then those of list a, then those after |
| ReorderLemmas.OrdersAreRanks | src/components/board/BoardCanvas.tsx:134-147 | with distinct list ids, the orders the payload gives to a list's cards are exactly 0..n-1, in order |
| ReorderLemmas.SwapTwoCards | src/components/board/BoardCanvas.tsx:84-144 | on a board with one list [A, B], hovering A over B and dropping sends B -> 0, A -> 1 |
| ReorderLemmas.SwapHover | src/components/board/BoardCanvas.tsx:84-95 | on a board with one list [A, B], hovering A over B leaves [B, A] |
| ReorderLemmas.MoveToEmptyList | src/components/board/BoardCanvas.tsx:97-144 | hovering C of [C, D] over an empty list leaves [D] and [C], and the drop sends D -> 0 in the first list and C -> 0 in the second |
| JsText.Utf16Length | src/components/signup-form.tsx:42-42 | `.length` lies between the number of characters and twice it, and equals it on text inside the Basic Multilingual Plane |
| JsText.Blank | src/components/board/BoardCanvas.tsx:152-152 | every character is JavaScript white space; `BlankIsTrimEmpty` shows this is exactly an empty trim |
| JsText.TrimStart | src/components/board/BoardCanvas.tsx:152-152 | a suffix of the input that starts with no white space, and only white space is dropped |
| JsText.TrimEnd | src/components/board/BoardCanvas.tsx:152-152 | a prefix of the input that ends with no white space, and only white space is dropped |
| JsText.BlankIsTrimEmpty | src/components/board/BoardCanvas.tsx:152-152 | a title is blank exactly when trimming it leaves the empty string, the test `!newListTitle.trim()` |
| Store.NextOrder | src/actions/cards.ts:27-27 | 0 when the scope is empty, otherwise above the largest order; the same rule sets a list's order (src/actions/lists.ts line 27), and `AppendKeepsOrdersDistinct` shows it is above every order in scope |
| Store.LastOrder | src/actions/cards.ts:18-21 | the newest-first lookup finds nothing exactly when the scope is empty, and otherwise finds the largest order in scope |
| CardActions.AppendKeepsOrdersDistinct | src/actions/cards.ts:17-27 | one past the largest order is above every order in scope, and distinct orders stay distinct once it is added |
| CardActions.ApplyPatch | src/actions/cards.ts:38-58 | each supplied field is replaced, each omitted field is kept, and the list and order never change |
| CardActions.Reposition | src/actions/cards.ts:127-137 | writing the batch keeps the set of cards |
| CardActions.RepositionEffect | src/actions/cards.ts:127-137 | with distinct ids, each named card ends with its entry's list and order and keeps its other fields; unnamed cards are unchanged |
| CardActions.RepositionKeepsLists | src/actions/cards.ts:127-137 | writing only existing lists leaves every card in an existing list |
| CardActions.CreateCard | src/actions/cards.ts:8-36 | no session: Unauthorized, nothing changes; unknown list: fails, nothing changes; otherwise the new card has the title, the list and default fields, and its order is 0 in an empty list or one past the largest, above every card of the list; only the card table changes, and the list's board is invalidated |
| CardActions.UpdateCard | src/actions/cards.ts:38-65 | no session: Unauthorized; unknown card: RecordNotFound; otherwise only that card changes, to the patched row, and its board is invalidated |
| CardActions.DeleteCard | src/actions/cards.ts:67-85 | no session: Unauthorized; unknown card: RecordNotFound; otherwise exactly that card is removed and returned, and its board is invalidated |
| CardActions.MoveCard | src/actions/cards.ts:87-113 | no session: Unauthorized; unknown card: RecordNotFound; unknown list: fails; otherwise only that card's list and order change, and the new list's board is invalidated |
| CardActions.WriteAll | src/actions/cards.ts:127-137 | the loop leaves the card table equal to `Reposition` of the batch and changes nothing else |
| CardActions.ReorderCards | src/actions/cards.ts:115-148 | no session: Unauthorized; an unknown card or list fails before any write; otherwise each named card takes its entry's list and order, unnamed cards are unchanged, and the first entry's board is invalidated only when the batch is not empty |
| ListActions.SetOrders | src/actions/lists.ts:83-90 | writing the batch keeps the set of lists |
| ListActions.SetOrdersEffect | src/actions/lists.ts:83-90 | with distinct ids, each named list takes its entry's order; unnamed lists are unchanged |
| ListActions.SetOrdersKeepsBoards | src/actions/lists.ts:83-90 | the batch never changes a list's title or board |
| ListActions.CreateList | src/actions/lists.ts:8-33 | no session: Unauthorized, nothing changes; unknown board: fails; otherwise the new list has the title and board, and its order is 0 on an empty board or one past the largest, above every list of the board; only the list table changes, and the board is invalidated |
| ListActions.UpdateList | src/actions/lists.ts:35-51 | no session: Unauthorized; unknown list: RecordNotFound; otherwise only that list's title changes, and its board is invalidated |
| ListActions.DeleteList | src/actions/lists.ts:53-68 | no session: Unauthorized; unknown list: RecordNotFound; otherwise exactly that list is removed, its cards go with it, every other card is unchanged, and its board is invalidated |
| ListActions.WriteOrders | src/actions/lists.ts:83-90 | the loop leaves the list table equal to `SetOrders` of the batch and changes nothing else |
| ListActions.ReorderLists | src/actions/lists.ts:70-93 | no session: Unauthorized; an unknown list fails before any write; otherwise each named list takes its entry's order, unnamed lists are unchanged, and the given board is invalidated |
| Slug.LowerChar | src/app/api/organizations/route.ts:27-27 | A-Z become a-z; other ASCII is kept; a lower case that holds a letter or digit comes from a letter, a digit, or one of two special capitals |
| Slug.Lower | src/app/api/organizations/route.ts:27-27 | between one and two characters per input character; text already in the slug alphabet is unchanged |
| Slug.DropNonSlug | src/app/api/organizations/route.ts:28-28 | drops exactly the leading characters outside a-z, 0-9 |
| Slug.Collapse | src/app/api/organizations/route.ts:28-28 | the result holds only a-z, 0-9 and "-" with no two "-" in a row, is empty exactly when the input is, and starts with the input's first character or with "-"; that each maximal run becomes one "-" is stated by `CollapseIsRuns`, `CollapseRun` and `CollapseSplit` |
| Slug.TrimDashes | src/app/api/organizations/route.ts:29-29 | without double dashes in the input, the result neither starts nor ends with "-" |
| Slug.TrimKeepsShape | src/app/api/organizations/route.ts:29-29 | trimming collapsed text keeps it inside the slug alphabet and without double dashes |
| Slug.MakeSlug | src/app/api/organizations/route.ts:26-29 | every slug holds only a-z, 0-9 and "-", with no "-" at either end and no two in a row; its letters and digits are stated by `SlugKeepsAlnum` and `SlugOfAscii`, its idempotence by `SlugIdempotent` |
| Slug.TrimDashesSlice | src/app/api/organizations/route.ts:29-29 | trimming only cuts at the ends |
| Slug.SliceKeepsShape | src/app/api/organizations/route.ts:29-29 | a piece of collapsed text keeps its alphabet and has no double dashes |
| Slug.AlnumAppend | src/app/api/organizations/route.ts:28-28 | the letters and digits of a concatenation are those of each part, in order |
| Slug.AlnumDropNonSlug | src/app/api/organizations/route.ts:28-28 | dropping a leading run loses no letter or digit |
| Slug.AlnumCollapse | src/app/api/organizations/route.ts:28-28 | collapsing runs keeps the letters and digits, in order |
| Slug.AlnumDash | src/app/api/organizations/route.ts:29-29 | a "-" at either end holds no letter or digit |
| Slug.AlnumTrimDashes | src/app/api/organizations/route.ts:29-29 | trimming the end dashes keeps the letters and digits |
| Slug.SlugKeepsAlnum | src/app/api/organizations/route.ts:26-29 | the slug's letters and digits are those of the lower-cased name, in order |
| Slug.FoldedAlnum | src/app/api/organizations/route.ts:26-28 | the reference result: the name's letters, lower-cased, and digits, all in a-z and 0-9 |
| Slug.AlnumLowerAscii | src/app/api/organizations/route.ts:27-27 | on ASCII, the letters and digits of the lower-cased text are the folded letters and digits |
| Slug.SlugOfAscii | src/app/api/organizations/route.ts:26-28 | on an ASCII name, the slug's letters and digits are exactly the name's letters, lower-cased, and digits, in the same order |
| Slug.RunsAppend | src/app/api/organizations/route.ts:28-28 | the left-to-right scan of a concatenation is the scan of the first part followed by the scan of the second, started in the state the first part ends in |
| Slug.RunsSkip | src/app/api/organizations/route.ts:28-28 | inside a run, the rest of the run adds nothing |
| Slug.CollapseIsRuns | src/app/api/organizations/route.ts:28-28 | `Collapse` equals the independent left-to-right scan in which the first character of each run emits "-" and the others nothing |
| Slug.CollapseRun | src/app/api/organizations/route.ts:28-28 | a non-empty run of characters outside a-z, 0-9 becomes exactly one "-" |
| Slug.CollapseSplit | src/app/api/organizations/route.ts:28-28 | collapsing a concatenation is collapsing each part, whenever a side is empty or a letter or digit touches the cut |
| Slug.LowerAppend | src/app/api/organizations/route.ts:27-27 | lower-casing a concatenation lower-cases each part |
| Slug.LowerOfSeparators | src/app/api/organizations/route.ts:27-27 | characters other than letters, digits and the two special capitals lower-case to text without a-z or 0-9 |
| Slug.SlugOfTwoWords | src/app/api/organizations/route.ts:26-29 | two words of a-z and 0-9 with any non-empty run of separators between them give exactly the two words joined by one "-" |
| Slug.SlugEmptyIffNoAlnum | src/app/api/organizations/route.ts:26-29 | the slug is empty exactly when the lower-cased name has no letter a-z or digit 0-9 |
| Slug.SuffixedShape | src/app/api/organizations/route.ts:37-39 | base + "-" + suffix is well shaped when base and suffix are well shaped and non-empty; with an empty base it starts with "-" and is not well shaped |
| Slug.CollapseKeepsSlugText | src/app/api/organizations/route.ts:28-28 | collapsing leaves text without foreign characters or double dashes unchanged |
| Slug.SlugIdempotent | src/app/api/organizations/route.ts:26-29 | slugifying a slug gives it back |
| Http.Truthy | src/app/api/organizations/route.ts:18-18 | a string field of the body passes `if (!field)` exactly when it is present and not empty; the board route uses the same test at src/app/api/boards/route.ts line 18 |
| OrganizationsRoute.SlugTaken | src/app/api/organizations/route.ts:32-36 | the lookup by slug finds an organization; `PostOrganization` uses it for the base slug and for the suffixed one |
| OrganizationsRoute.PostOrganization | src/app/api/organizations/route.ts:5-82 | 401 without a session, 500 on a body that is not JSON, 400 on a missing or empty name, each with nothing created; otherwise the base slug if it is free, or base + "-" + suffix if it is taken; a taken final slug is a 500 with nothing created; else the organization is created by the caller, whose OWNER membership is its only one |
| BoardsRoute.DefaultLists | src/app/api/boards/route.ts:54-72 | a new board gets exactly three lists: "To Do" 0, "In Progress" 1, "Done" 2 |
| BoardsRoute.MemberOfSlug | src/app/api/boards/route.ts:26-37 | the organization with the slug exists and has a membership row for the caller; `PostBoard` answers 404 exactly when this fails |
| BoardsRoute.PostBoard | src/app/api/boards/route.ts:5-82 | 401, then 500 on a body that is not JSON, then 400 on a missing title or slug, then 404 when no organization with that slug has the caller as a member, each with nothing created; otherwise the board belongs to that organization, is created by the caller, and has exactly the three default lists |
| Signup.SignupForm.constructor | src/components/signup-form.tsx:26-31 | the form starts empty, with no error and not loading |
| Signup.SignupForm.Submit | src/components/signup-form.tsx:33-54 | the error is cleared first; a mismatch is reported before length; a short password is reported; otherwise loading starts and the request carries the entered email, password and name; the fields are never changed |
| Signup.SignupForm.Complete | src/components/signup-form.tsx:56-65 | loading stops whatever the outcome; a rejection shows its message or the default one; a throw shows the generic error; success goes to the dashboard |

## Left out

- Rendering, the drag overlay, the pointer sensors with their 8-pixel activation distance, and the pending flag are not modelled. They do not change the board or the requests.
- `startTransition` and the awaited server calls are not modelled as concurrency. `HandleDragEnd` returns the request it sends. `HandleCreateList` receives the create-list action's answer as a parameter, and None stands for a call that threw.
- Lists are droppable, not sortable, and no file modelled here calls the list reorder action. So there is no list drag path, and `ListActions.ReorderLists` stands alone.
- Authentication is not modelled. The session is a parameter of each action and route, and the sign-up service's answer is a parameter of `Complete`. The social sign-in buttons are not part of this model.
- `revalidatePath` is modelled only as the log `Store.Backend.invalidated` of the board ids whose view was marked stale.
- The database is an in-memory map per table. Ids chosen by the database are fresh-id parameters. The schema is not part of this model. The model gives it these behaviours, from the application's design:
  - foreign keys on every parent id;
  - a unique organization slug;
  - defaults on a new card: no description, no due date, not completed;
  - a list's cards are deleted with the list;
  - an update or delete of a missing id fails.
- `Math.random().toString(36).substring(2, 8)` is the `suffix` parameter of `PostOrganization`.
- OrganizationsRoute.PostOrganization: the stored slug is not promised to be well shaped. A name without letters a-z or digits (such as "!!!" or a name in a non-Latin script) gets the empty base slug (`SlugEmptyIffNoAlnum`), and the next organization with such a name is stored as "-" followed by the suffix (`SuffixedShape`). The route does the same, and the model keeps that behaviour.
- A request body that is not JSON is the body None, and the catch block answers it with 500. JSON fields whose values are not strings are not modelled.
- CardActions.ReorderCards: requires distinct card ids and checks every card and list before writing. The source runs the writes concurrently with `Promise.all`, so a failing entry may leave earlier or later writes applied. Partial batches and races are not modelled.
- ListActions.ReorderLists: requires distinct list ids and checks every list before writing, for the same reason.
- CardActions.MoveCard: a missing card is reported before an unknown list. The database decides which it reports, and no caller among the files modelled here depends on it.
- Slug.LowerChar: models `toLowerCase` only as far as the slug can tell. A-Z, KELVIN SIGN and LATIN CAPITAL LETTER I WITH DOT ABOVE are folded; every other character is kept, since its lower case turns into the same "-" as the character itself. The letters-and-digits property is therefore stated for ASCII names (`SlugOfAscii`), and for any name relative to `Lower` (`SlugKeepsAlnum`).
