/** The kanban board rules (dashboard/kanban/actions/card-actions.ts and
    board-actions.ts) over an in-memory copy of the board, column and card
    tables. Row ids are the store's strings; the id a new row receives is
    passed in and differs from every id already stored. An error the source
    throws is an outcome of its own. */
module Kanban {
  import opened Common
  import opened JsText
  import opened KanbanSchemas

  /** The business units a board belongs to, one board each. */
  datatype SaleOrigin = InternationalLaw | FamilyLaw | BankingLaw | ProceduralLaw | Administrative

  /** The enum member's name as the database and Slack payloads spell it. */
  function SaleOriginName(o: SaleOrigin): string {
    match o
    case InternationalLaw => "INTERNATIONAL_LAW"
    case FamilyLaw => "FAMILY_LAW"
    case BankingLaw => "BANKING_LAW"
    case ProceduralLaw => "PROCEDURAL_LAW"
    case Administrative => "ADMINISTRATIVE"
  }

  datatype Board = Board(id: string, saleOrigin: SaleOrigin, teamSize: int)
  datatype Column = Column(id: string, boardId: string, title: string, order: int, wipLimit: Option<nat>)
  /** The descriptive part of a card (kanban/types GeneratedCard). */
  datatype GeneratedCard = GeneratedCard(name: string, specification: string, objective: string,
                                         acceptanceCriteria: string, estimatedHours: real)
  datatype Card = Card(id: string, columnId: string, data: GeneratedCard, position: real, isNext: bool)

  /** What an action throws: the schema's error, the store's "record not
      found", a property read on a missing row, or an `Error` with a message. */
  datatype Thrown = SchemaError | RecordNotFound | TypeError | Error(message: string)
  datatype Outcome<T> = Done(value: T) | Threw(error: Thrown)

  // ---------------------------------------------------------------------
  // Lookups and column contents

  /** The first position holding a card with that id. */
  function CardIndex(cards: seq<Card>, id: string): (r: Option<nat>)
    ensures r.Some? ==> r.value < |cards| && cards[r.value].id == id
    ensures r.Some? ==> forall k :: 0 <= k < r.value ==> cards[k].id != id
    ensures r.None? <==> forall k :: 0 <= k < |cards| ==> cards[k].id != id
  {
    if cards == [] then None
    else if cards[0].id == id then Some(0)
    else match CardIndex(cards[1..], id)
      case None => None
      case Some(k) => Some(k + 1)
  }

  /** The first column with that id. */
  function ColumnOf(columns: seq<Column>, id: string): (r: Option<Column>)
    ensures r.Some? ==> r.value in columns && r.value.id == id
    ensures r.None? <==> forall k :: 0 <= k < |columns| ==> columns[k].id != id
  {
    if columns == [] then None
    else if columns[0].id == id then Some(columns[0])
    else ColumnOf(columns[1..], id)
  }

  /** The board and the order of the column with that id, if there is one. */
  function BoardOf(columns: seq<Column>, columnId: string): Option<string> {
    match ColumnOf(columns, columnId)
    case None => None
    case Some(c) => Some(c.boardId)
  }

  function OrderOf(columns: seq<Column>, columnId: string): Option<int> {
    match ColumnOf(columns, columnId)
    case None => None
    case Some(c) => Some(c.order)
  }

  /** The first board with that id. */
  function BoardIndex(boards: seq<Board>, id: string): (r: Option<nat>)
    ensures r.Some? ==> r.value < |boards| && boards[r.value].id == id
    ensures r.None? <==> forall k :: 0 <= k < |boards| ==> boards[k].id != id
  {
    if boards == [] then None
    else if boards[0].id == id then Some(0)
    else match BoardIndex(boards[1..], id)
      case None => None
      case Some(k) => Some(k + 1)
  }

  /** `findUnique({ where: { saleOrigin } })` */
  function BoardFor(boards: seq<Board>, saleOrigin: SaleOrigin): (r: Option<Board>)
    ensures r.Some? ==> r.value in boards && r.value.saleOrigin == saleOrigin
    ensures r.None? <==> forall k :: 0 <= k < |boards| ==> boards[k].saleOrigin != saleOrigin
  {
    if boards == [] then None
    else if boards[0].saleOrigin == saleOrigin then Some(boards[0])
    else BoardFor(boards[1..], saleOrigin)
  }

  /** The cards of a column, in store order, leaving out the card `except`
      names. */
  function InColumn(cards: seq<Card>, columnId: string, except: Option<string>): (r: seq<Card>)
    ensures forall c :: c in r <==> c in cards && c.columnId == columnId && Some(c.id) != except
    ensures |r| <= |cards|
  {
    if cards == [] then []
    else
      var rest := InColumn(cards[1..], columnId, except);
      assert forall c :: c in cards <==> c == cards[0] || c in cards[1..];
      if cards[0].columnId == columnId && Some(cards[0].id) != except then [cards[0]] + rest else rest
  }

  function Positions(cards: seq<Card>): (r: seq<real>)
    ensures |r| == |cards|
    ensures forall i :: 0 <= i < |cards| ==> r[i] == cards[i].position
  {
    seq(|cards|, i requires 0 <= i < |cards| => cards[i].position)
  }

  /** The largest of some numbers, none for an empty list. */
  function MaxOf(xs: seq<real>): (r: Option<real>)
    ensures r.None? <==> xs == []
    ensures r.Some? ==> r.value in xs && forall k :: 0 <= k < |xs| ==> xs[k] <= r.value
  {
    if xs == [] then None
    else match MaxOf(xs[1..])
      case None => Some(xs[0])
      case Some(m) => Some(if xs[0] >= m then xs[0] else m)
  }

  /** Each number is at most the next. */
  predicate Ascending(xs: seq<real>) {
    forall i :: 0 <= i < |xs| - 1 ==> xs[i] <= xs[i + 1]
  }

  predicate StrictlyAscending(xs: seq<real>) {
    forall i, j :: 0 <= i < j < |xs| ==> xs[i] < xs[j]
  }

  function InsertReal(x: real, ys: seq<real>): (r: seq<real>)
    requires Ascending(ys)
    ensures multiset(r) == multiset(ys) + multiset{x}
    ensures Ascending(r)
    ensures r != [] && (r[0] == x || (ys != [] && r[0] == ys[0]))
  {
    if ys == [] || x <= ys[0] then [x] + ys
    else
      var tail := InsertReal(x, ys[1..]);
      assert ys == [ys[0]] + ys[1..];
      [ys[0]] + tail
  }

  /** `orderBy: { position: "asc" }`, on the positions alone. */
  function SortReals(xs: seq<real>): (r: seq<real>)
    ensures multiset(r) == multiset(xs)
    ensures Ascending(r)
  {
    if xs == [] then []
    else
      assert xs == [xs[0]] + xs[1..];
      InsertReal(xs[0], SortReals(xs[1..]))
  }

  // ---------------------------------------------------------------------
  // Positions

  /** calculateNewPosition: a position between two neighbours, either of
      which may be missing. */
  function CalculateNewPosition(before: Option<real>, after: Option<real>): (r: real)
    ensures before.None? && after.None? ==> r == 1000.0
    ensures before.Some? && after.None? ==> r > before.value
    ensures before.None? && after.Some? && after.value > 0.0 ==> 0.0 < r < after.value
    ensures before.Some? && after.Some? && before.value < after.value ==> before.value < r < after.value
    ensures before.Some? && after.Some? && before.value == after.value ==> r == before.value
  {
    if before.None? && after.None? then 1000.0
    else if before.None? then after.value / 2.0
    else if after.None? then before.value + 1000.0
    else (before.value + after.value) / 2.0
  }

  /** `cardsInTarget[index]?.position`: defined only at an integer index
      inside the list. */
  function Neighbour(ps: seq<real>, index: real): (r: Option<real>)
    ensures r.Some? <==> IsInteger(index) && 0.0 <= index < |ps| as real
    ensures r.Some? ==> r.value == ps[index.Floor]
  {
    if IsInteger(index) && 0.0 <= index < |ps| as real then Some(ps[index.Floor]) else None
  }

  /** moveCard's position AS WRITTEN: `Number(x ?? null)` turns a missing
      neighbour into 0, so the "after" neighbour is never missing and a
      missing "before" neighbour past index 0 is 0 too. */
  function MovePositionAsWritten(ps: seq<real>, targetPosition: real): real {
    var before := if targetPosition > 0.0 then Some(Neighbour(ps, targetPosition - 1.0).GetOr(0.0)) else None;
    var after := Some(Neighbour(ps, targetPosition).GetOr(0.0));
    CalculateNewPosition(before, after)
  }

  /** Dropping a card past the last one of a non-empty column puts it at
      half the last position, and dropping it into an empty column puts it
      at 0, as written. */
  lemma DropPastLastHalvesLast(ps: seq<real>)
    ensures ps != [] ==> MovePositionAsWritten(ps, |ps| as real) == ps[|ps| - 1] / 2.0
    ensures MovePositionAsWritten([], 0.0) == 0.0
  {
    NeighbourAt(ps, |ps| as real);
    if ps != [] {
      assert |ps| as real - 1.0 == (|ps| - 1) as real;
      NeighbourAt(ps, (|ps| - 1) as real);
    }
    NeighbourAt([], 0.0);
  }

  lemma NeighbourAt(ps: seq<real>, index: real)
    requires IsInteger(index) && 0.0 <= index
    ensures index.Floor < |ps| ==> Neighbour(ps, index) == Some(ps[index.Floor])
    ensures index.Floor >= |ps| ==> Neighbour(ps, index) == None
  {
  }

  /** The concrete case: cards at 1000 and 2000, dropped at index 2 (after
      the second card), land at 1000, level with the first card and below
      the second. */
  lemma DropAfterLastLandsBelowIt()
    ensures MovePositionAsWritten([1000.0, 2000.0], 2.0) == 1000.0
    ensures !StrictlyAscending([1000.0, 2000.0] + [MovePositionAsWritten([1000.0, 2000.0], 2.0)])
  {
    DropPastLastHalvesLast([1000.0, 2000.0]);
    var r := [1000.0, 2000.0] + [MovePositionAsWritten([1000.0, 2000.0], 2.0)];
    assert r[1] == 2000.0 && r[2] == 1000.0;
  }

  /** moveCard's position as intended: a neighbour that is not there stays
      missing (`?? null` without the `Number` conversion). */
  function MovePosition(ps: seq<real>, targetPosition: real): (r: real)
    ensures (forall k :: 0 <= k < |ps| ==> ps[k] > 0.0) ==> r > 0.0
  {
    var before := if targetPosition > 0.0 then Neighbour(ps, targetPosition - 1.0) else None;
    var after := Neighbour(ps, targetPosition);
    CalculateNewPosition(before, after)
  }

  /** The corrected position puts the card exactly where it was dropped:
      inserted at that index, the column's positions stay strictly
      ascending. */
  lemma DropLandsAtIndex(ps: seq<real>, t: nat)
    requires StrictlyAscending(ps) && (forall k :: 0 <= k < |ps| ==> ps[k] > 0.0)
    requires t <= |ps|
    ensures StrictlyAscending(ps[..t] + [MovePosition(ps, t as real)] + ps[t..])
  {
    var q := MovePosition(ps, t as real);
    assert IsInteger(t as real);
    if t > 0 {
      assert (t - 1) as real == t as real - 1.0;
      assert IsInteger(t as real - 1.0);
      assert Neighbour(ps, t as real - 1.0) == Some(ps[t - 1]);
    }
    if t < |ps| {
      assert Neighbour(ps, t as real) == Some(ps[t]);
    } else {
      assert Neighbour(ps, t as real) == None;
    }
    assert t > 0 ==> ps[t - 1] < q;
    assert t < |ps| ==> q < ps[t];
    var r := ps[..t] + [q] + ps[t..];
    assert forall i :: 0 <= i < |r| ==> r[i] == if i < t then ps[i] else if i == t then q else ps[i - 1];
    forall i, j | 0 <= i < j < |r| ensures r[i] < r[j] {
      if j < t {
      } else if i < t && j == t {
        assert ps[i] <= ps[t - 1];
      } else if i < t {
        assert ps[i] < ps[j - 1];
      } else if i == t {
        assert ps[t] <= ps[j - 1];
      } else {
        assert ps[i - 1] < ps[j - 1];
      }
    }
  }

  /** The last position of a column as createCard reads it: a column whose
      top card sits at 0 counts as empty. */
  function LastPosition(cards: seq<Card>, columnId: string): (r: Option<real>)
    ensures r.None? ==> forall k :: 0 <= k < |cards| && cards[k].columnId == columnId ==> cards[k].position <= 0.0
    ensures r.Some? ==> r.value != 0.0
    ensures r.Some? ==> forall k :: 0 <= k < |cards| && cards[k].columnId == columnId ==> cards[k].position <= r.value
    ensures r.Some? ==> exists k :: 0 <= k < |cards| && cards[k].columnId == columnId && cards[k].position == r.value
  {
    var cs := InColumn(cards, columnId, None);
    var ps := Positions(cs);
    var m := MaxOf(ps);
    forall k | 0 <= k < |cards| && cards[k].columnId == columnId ensures cards[k].position in ps {
      assert cards[k] in cs;
      var j :| 0 <= j < |cs| && cs[j] == cards[k];
      assert ps[j] == cards[k].position;
    }
    if m.Some? && m.value != 0.0 then
      var j :| 0 <= j < |ps| && ps[j] == m.value;
      assert cs[j] in cards;
      Some(m.value)
    else None
  }

  // ---------------------------------------------------------------------
  // What the store keeps true

  predicate BoardsValid(boards: seq<Board>) {
    forall i, j :: 0 <= i < j < |boards| ==> boards[i].id != boards[j].id && boards[i].saleOrigin != boards[j].saleOrigin
  }

  predicate ColumnsValid(columns: seq<Column>) {
    forall i, j :: 0 <= i < j < |columns| ==> columns[i].id != columns[j].id
  }

  /** Every column belongs to a stored board. */
  predicate ColumnsOnBoards(columns: seq<Column>, boards: seq<Board>) {
    forall k :: 0 <= k < |columns| ==> BoardIndex(boards, columns[k].boardId).Some?
  }

  /** Card ids are distinct, each card's column exists, a card marked next sits in an order-0 column, and no two
      marked cards share a board. */
  predicate CardsValid(cards: seq<Card>, columns: seq<Column>) {
    CardIdsDistinct(cards) && CardsPlaced(cards, columns) && NextInBacklog(cards, columns)
    && SingleNextPerBoard(cards, columns)
  }

  predicate CardIdsDistinct(cards: seq<Card>) {
    forall i, j :: 0 <= i < j < |cards| ==> cards[i].id != cards[j].id
  }

  predicate CardsPlaced(cards: seq<Card>, columns: seq<Column>) {
    forall i :: 0 <= i < |cards| ==> ColumnOf(columns, cards[i].columnId).Some?
  }

  predicate NextInBacklog(cards: seq<Card>, columns: seq<Column>) {
    forall i :: 0 <= i < |cards| && cards[i].isNext ==> OrderOf(columns, cards[i].columnId) == Some(0)
  }

  predicate SingleNextPerBoard(cards: seq<Card>, columns: seq<Column>) {
    forall i, j :: 0 <= i < |cards| && 0 <= j < |cards| && cards[i].isNext && cards[j].isNext
      && BoardOf(columns, cards[i].columnId) == BoardOf(columns, cards[j].columnId)
      ==> i == j
  }

  /** Two column lists that agree row by row on id, board and order place
      every card alike. */
  lemma {:induction false} SamePlacement(a: seq<Column>, b: seq<Column>, id: string)
    requires |a| == |b|
    requires forall k :: 0 <= k < |a| ==> a[k].id == b[k].id && a[k].boardId == b[k].boardId && a[k].order == b[k].order
    ensures (ColumnOf(a, id).Some? <==> ColumnOf(b, id).Some?)
    ensures BoardOf(a, id) == BoardOf(b, id) && OrderOf(a, id) == OrderOf(b, id)
  {
    if a != [] && a[0].id != id {
      SamePlacement(a[1..], b[1..], id);
    }
  }

  /** Appending columns does not move a column already found. */
  lemma {:induction false} ColumnOfAppend(a: seq<Column>, b: seq<Column>, id: string)
    requires ColumnOf(a, id).Some?
    ensures ColumnOf(a + b, id) == ColumnOf(a, id)
  {
    if a[0].id != id {
      assert (a + b)[1..] == a[1..] + b;
      ColumnOfAppend(a[1..], b, id);
    }
  }

  /** The columns a new board receives: Backlog without a WIP limit, then
      Specify, Implement, Validate and Deploy limited to 2, ordered 0 to 4. */
  function DefaultColumns(boardId: string, ids: seq<string>): (r: seq<Column>)
    requires |ids| == 5
    ensures |r| == 5
    ensures forall k :: 0 <= k < 5 ==> r[k].id == ids[k] && r[k].boardId == boardId && r[k].order == k
    ensures forall k :: 0 <= k < 5 ==> (r[k].wipLimit.None? <==> r[k].order == 0)
    ensures forall k :: 0 <= k < 5 && r[k].wipLimit.Some? ==> r[k].wipLimit.value == 2
    ensures [r[0].title, r[1].title, r[2].title, r[3].title, r[4].title] == ["Backlog", "Specify", "Implement", "Validate", "Deploy"]
  {
    [Column(ids[0], boardId, "Backlog", 0, None),
     Column(ids[1], boardId, "Specify", 1, Some(2)),
     Column(ids[2], boardId, "Implement", 2, Some(2)),
     Column(ids[3], boardId, "Validate", 3, Some(2)),
     Column(ids[4], boardId, "Deploy", 4, Some(2))]
  }

  /** updateBoardTeamSize's `updateMany` on one column. */
  function ResetWip(c: Column, boardId: string): (r: Column)
    ensures r.id == c.id && r.boardId == c.boardId && r.order == c.order && r.title == c.title
    ensures r.wipLimit.None? <==> c.wipLimit.None?
    ensures c.boardId == boardId && c.wipLimit.Some? ==> r.wipLimit == Some(2)
    ensures c.boardId != boardId ==> r == c
  {
    if c.boardId == boardId && c.wipLimit.Some? then c.(wipLimit := Some(2)) else c
  }

  /** The error a move is refused with, checked in the source's order. */
  function MoveRefusal(cards: seq<Card>, columns: seq<Column>, cardId: string, targetColumnId: string, targetPosition: real)
    : (r: Option<Thrown>)
    ensures r.None? <==>
      ValidMoveCard(cardId, targetColumnId, targetPosition)
      && CardIndex(cards, cardId).Some?
      && ColumnOf(columns, targetColumnId).Some?
      && ColumnOf(columns, cards[CardIndex(cards, cardId).value].columnId).Some?
      && (var source := ColumnOf(columns, cards[CardIndex(cards, cardId).value].columnId).value;
          var target := ColumnOf(columns, targetColumnId).value;
          source.boardId == target.boardId
          && -1 <= target.order - source.order <= 1
          && (target.order < source.order ==> source.order > 1 && target.order > 0)
          && (target.wipLimit.Some? ==> |InColumn(cards, targetColumnId, Some(cardId))| < target.wipLimit.value))
  {
    if !ValidMoveCard(cardId, targetColumnId, targetPosition) then Some(SchemaError)
    else match CardIndex(cards, cardId)
      case None => Some(Error("Card not found"))
      case Some(i) =>
        match ColumnOf(columns, targetColumnId)
        case None => Some(Error("Target column not found"))
        case Some(target) =>
          match ColumnOf(columns, cards[i].columnId)
          case None => Some(TypeError)
          case Some(source) =>
            var diff := target.order - source.order;
            if source.boardId != target.boardId then Some(Error("Cannot move card between boards"))
            else if diff > 1 || diff < -1 then Some(Error("Cannot skip columns"))
            else if diff < 0 && !(source.order > 1 && target.order > 0) then
              Some(Error("Cards só podem voltar após Specify e não podem voltar para Backlog"))
            else if target.wipLimit.Some? && |InColumn(cards, targetColumnId, Some(cardId))| >= target.wipLimit.value then
              Some(Error("WIP limit reached: " + NatToString(target.wipLimit.value)))
            else None
  }

  /** A move into a column at its WIP limit is refused with the limit in
      the message, and a column without a limit never refuses for that. */
  lemma MoveWipRefusal(cards: seq<Card>, columns: seq<Column>, cardId: string, targetColumnId: string, targetPosition: real)
    requires ValidMoveCard(cardId, targetColumnId, targetPosition)
    requires CardIndex(cards, cardId).Some? && ColumnOf(columns, targetColumnId).Some?
    requires ColumnOf(columns, cards[CardIndex(cards, cardId).value].columnId).Some?
    requires ColumnOf(columns, cards[CardIndex(cards, cardId).value].columnId).value.boardId == ColumnOf(columns, targetColumnId).value.boardId
    requires ColumnOf(columns, cards[CardIndex(cards, cardId).value].columnId).value.order == ColumnOf(columns, targetColumnId).value.order
    ensures ColumnOf(columns, targetColumnId).value.wipLimit.None? ==> MoveRefusal(cards, columns, cardId, targetColumnId, targetPosition).None?
    ensures var target := ColumnOf(columns, targetColumnId).value;
      target.wipLimit.Some? && |InColumn(cards, targetColumnId, Some(cardId))| >= target.wipLimit.value ==>
      MoveRefusal(cards, columns, cardId, targetColumnId, targetPosition) == Some(Error("WIP limit reached: " + NatToString(target.wipLimit.value)))
  {
  }

  // ---------------------------------------------------------------------
  // The store

  class KanbanStore {
    var boards: seq<Board>
    var columns: seq<Column>
    var cards: seq<Card>

    ghost predicate Valid()
      reads this
    {
      BoardsValid(boards) && ColumnsValid(columns) && ColumnsOnBoards(columns, boards) && CardsValid(cards, columns)
    }

    constructor ()
      ensures Valid() && boards == [] && columns == [] && cards == []
    {
      boards := [];
      columns := [];
      cards := [];
    }

    /** createCard: the schema, then the column; the card goes above the
        column's last card, or to 1000 when the column is empty or its top
        card sits at 0, and is not marked next. */
    method CreateCard(columnId: string, data: GeneratedCard, newId: string) returns (r: Outcome<Card>)
      requires Valid()
      requires CardIndex(cards, newId).None?
      modifies this`cards
      ensures Valid()
      ensures !ValidCreateCard(columnId, data.name, data.specification, data.objective, data.acceptanceCriteria, data.estimatedHours)
              ==> r == Threw(SchemaError)
      ensures ValidCreateCard(columnId, data.name, data.specification, data.objective, data.acceptanceCriteria, data.estimatedHours)
              && ColumnOf(columns, columnId).None?
              ==> r == Threw(Error("Column not found"))
      ensures r.Done? <==> ValidCreateCard(columnId, data.name, data.specification, data.objective, data.acceptanceCriteria, data.estimatedHours)
                           && ColumnOf(columns, columnId).Some?
      ensures r.Threw? ==> cards == old(cards)
      ensures r.Done? ==> r.value == Card(newId, columnId, data, CalculateNewPosition(LastPosition(old(cards), columnId), None), false)
      ensures r.Done? ==> cards == old(cards) + [r.value]
      ensures r.Done? ==> forall k :: 0 <= k < |old(cards)| && old(cards)[k].columnId == columnId ==> old(cards)[k].position < r.value.position
    {
      if !ValidCreateCard(columnId, data.name, data.specification, data.objective, data.acceptanceCriteria, data.estimatedHours) {
        return Threw(SchemaError);
      }
      var column := ColumnOf(columns, columnId);
      if column.None? {
        return Threw(Error("Column not found"));
      }
      var position := CalculateNewPosition(LastPosition(cards, columnId), None);
      var card := Card(newId, columnId, data, position, false);
      AddPreservesCards(cards, columns, card);
      cards := cards + [card];
      r := Done(card);
    }

    /** moveCard: refused as MoveRefusal says, the store unchanged;
        otherwise the card moves to the target column at the position its
        drop index gives among the column's other cards, and loses its
        "next" mark when it leaves an order-0 column. */
    method MoveCard(cardId: string, targetColumnId: string, targetPosition: real) returns (r: Outcome<Card>)
      requires Valid()
      modifies this`cards
      ensures Valid()
      ensures r.Threw? <==> MoveRefusal(old(cards), columns, cardId, targetColumnId, targetPosition).Some?
      ensures r.Threw? ==> r.error == MoveRefusal(old(cards), columns, cardId, targetColumnId, targetPosition).value && cards == old(cards)
      ensures r.Done? ==>
        var i := CardIndex(old(cards), cardId).value;
        var card := old(cards)[i];
        cards == old(cards)[i := r.value]
        && r.value.id == cardId && r.value.columnId == targetColumnId && r.value.data == card.data
        && r.value.position == MovePositionAsWritten(SortReals(Positions(InColumn(old(cards), targetColumnId, Some(cardId)))), targetPosition)
        && r.value.isNext == (card.isNext && !(OrderOf(columns, card.columnId) == Some(0) && OrderOf(columns, targetColumnId) != Some(0)))
    {
      var refusal := MoveRefusal(cards, columns, cardId, targetColumnId, targetPosition);
      if refusal.Some? {
        return Threw(refusal.value);
      }
      var i := CardIndex(cards, cardId).value;
      var card := cards[i];
      var source := ColumnOf(columns, card.columnId).value;
      var target := ColumnOf(columns, targetColumnId).value;
      var ps := SortReals(Positions(InColumn(cards, targetColumnId, Some(cardId))));
      var position := MovePositionAsWritten(ps, targetPosition);
      var isLeavingBacklog := source.order == 0 && target.order != 0;
      var moved := Card(card.id, targetColumnId, card.data, position, if isLeavingBacklog then false else card.isNext);
      MovePreservesCards(cards, columns, i, moved);
      cards := cards[i := moved];
      r := Done(moved);
    }

    /** toggleIsNext: only a card of an order-0 column of that board; every
        other card of the board loses its mark and this one is marked. */
    method ToggleIsNext(cardId: string, boardId: string) returns (r: Outcome<bool>)
      requires Valid()
      modifies this`cards
      ensures Valid()
      ensures !ValidToggleIsNext(cardId, boardId) ==> r == Threw(SchemaError)
      ensures ValidToggleIsNext(cardId, boardId) && CardIndex(old(cards), cardId).None? ==> r == Threw(Error("Card not found"))
      ensures ValidToggleIsNext(cardId, boardId) && CardIndex(old(cards), cardId).Some? ==>
        var card := old(cards)[CardIndex(old(cards), cardId).value];
        (BoardOf(columns, card.columnId) != Some(boardId) ==> r == Threw(Error("Card does not belong to this board")))
        && (BoardOf(columns, card.columnId) == Some(boardId) && OrderOf(columns, card.columnId) != Some(0) ==>
              r == Threw(Error("Apenas cards no Backlog podem ser marcados como próximo")))
        && (BoardOf(columns, card.columnId) == Some(boardId) && OrderOf(columns, card.columnId) == Some(0) ==> r == Done(true))
      ensures r.Threw? ==> cards == old(cards)
      ensures r.Done? ==>
        var i := CardIndex(old(cards), cardId).value;
        |cards| == |old(cards)|
        && (forall k :: 0 <= k < |cards| ==>
              cards[k] == old(cards)[k].(isNext := if k == i then true
                                                    else if BoardOf(columns, old(cards)[k].columnId) == Some(boardId) then false
                                                    else old(cards)[k].isNext))
        && forall k :: 0 <= k < |cards| ==>
             (cards[k].isNext && BoardOf(columns, cards[k].columnId) == Some(boardId) <==> k == i)
    {
      if !ValidToggleIsNext(cardId, boardId) {
        return Threw(SchemaError);
      }
      var found := CardIndex(cards, cardId);
      if found.None? {
        return Threw(Error("Card not found"));
      }
      var i := found.value;
      var column := ColumnOf(columns, cards[i].columnId).value;
      if column.boardId != boardId {
        return Threw(Error("Card does not belong to this board"));
      }
      if column.order != 0 {
        return Threw(Error("Apenas cards no Backlog podem ser marcados como próximo"));
      }
      cards := MarkNext(cards, columns, i, boardId);
      r := Done(true);
    }

    /** deleteCard: the store refuses an unknown id; otherwise that card
        alone goes. */
    method DeleteCard(cardId: string) returns (r: Outcome<Card>)
      requires Valid()
      modifies this`cards
      ensures Valid()
      ensures r.Threw? <==> CardIndex(old(cards), cardId).None?
      ensures r.Threw? ==> r.error == RecordNotFound && cards == old(cards)
      ensures r.Done? ==>
        var i := CardIndex(old(cards), cardId).value;
        r.value == old(cards)[i] && cards == old(cards)[..i] + old(cards)[i + 1..]
      ensures forall c :: c in cards <==> c in old(cards) && c.id != cardId
    {
      var found := CardIndex(cards, cardId);
      if found.None? {
        return Threw(RecordNotFound);
      }
      var i := found.value;
      r := Done(cards[i]);
      RemovePreservesCards(cards, columns, i);
      cards := cards[..i] + cards[i + 1..];
    }

    /** createBoardWithColumns: a board of team size 3 with the default
        columns; the store's unique key on the sale origin refuses a
        second board for one origin. */
    method CreateBoardWithColumns(saleOrigin: SaleOrigin, newBoardId: string, newColumnIds: seq<string>) returns (b: Board)
      requires Valid()
      requires BoardFor(boards, saleOrigin).None? && BoardIndex(boards, newBoardId).None?
      requires |newColumnIds| == 5 && forall i, j :: 0 <= i < j < 5 ==> newColumnIds[i] != newColumnIds[j]
      requires forall k :: 0 <= k < 5 ==> ColumnOf(columns, newColumnIds[k]).None?
      modifies this`boards, this`columns
      ensures Valid()
      ensures b == Board(newBoardId, saleOrigin, 3)
      ensures boards == old(boards) + [b]
      ensures columns == old(columns) + DefaultColumns(newBoardId, newColumnIds)
    {
      b := Board(newBoardId, saleOrigin, 3);
      BoardIndexAppend(boards, b);
      boards := boards + [b];
      NewColumnsKeepCards(cards, columns, DefaultColumns(newBoardId, newColumnIds));
      columns := columns + DefaultColumns(newBoardId, newColumnIds);
      assert forall k :: 0 <= k < |columns| ==> BoardIndex(boards, columns[k].boardId).Some?;
    }

    /** getOrCreateBoard: the board of that origin, created with the
        default columns when there is none, so that asking again returns
        the same board. */
    method GetOrCreateBoard(saleOrigin: SaleOrigin, newBoardId: string, newColumnIds: seq<string>) returns (b: Board)
      requires Valid()
      requires BoardIndex(boards, newBoardId).None?
      requires |newColumnIds| == 5 && forall i, j :: 0 <= i < j < 5 ==> newColumnIds[i] != newColumnIds[j]
      requires forall k :: 0 <= k < 5 ==> ColumnOf(columns, newColumnIds[k]).None?
      modifies this`boards, this`columns
      ensures Valid()
      ensures BoardFor(old(boards), saleOrigin).Some? ==>
        b == BoardFor(old(boards), saleOrigin).value && boards == old(boards) && columns == old(columns)
      ensures BoardFor(old(boards), saleOrigin).None? ==>
        b == Board(newBoardId, saleOrigin, 3) && boards == old(boards) + [b]
        && columns == old(columns) + DefaultColumns(newBoardId, newColumnIds)
      ensures BoardFor(boards, saleOrigin) == Some(b)
    {
      var existing := BoardFor(boards, saleOrigin);
      if existing.Some? {
        return existing.value;
      }
      b := CreateBoardWithColumns(saleOrigin, newBoardId, newColumnIds);
      FoundAtEnd(old(boards), b);
    }

    /** updateBoardTeamSize: the schema, then the board; in one transaction
        the team size is set and every limited column of the board goes
        back to a limit of 2, whatever the team size; unlimited columns stay
        unlimited. */
    method UpdateBoardTeamSize(boardId: string, teamSize: real) returns (r: Outcome<bool>)
      requires Valid()
      modifies this`boards, this`columns
      ensures Valid()
      ensures !ValidUpdateBoardTeamSize(boardId, teamSize) ==> r == Threw(SchemaError)
      ensures ValidUpdateBoardTeamSize(boardId, teamSize) && BoardIndex(old(boards), boardId).None? ==> r == Threw(RecordNotFound)
      ensures r.Done? <==> ValidUpdateBoardTeamSize(boardId, teamSize) && BoardIndex(old(boards), boardId).Some?
      ensures r.Threw? ==> boards == old(boards) && columns == old(columns)
      ensures r.Done? ==>
        r.value && 1 <= teamSize.Floor <= 20
        && boards == old(boards)[BoardIndex(old(boards), boardId).value := old(boards)[BoardIndex(old(boards), boardId).value].(teamSize := teamSize.Floor)]
        && |columns| == |old(columns)|
        && forall k :: 0 <= k < |columns| ==> columns[k] == ResetWip(old(columns)[k], boardId)
    {
      if !ValidUpdateBoardTeamSize(boardId, teamSize) {
        return Threw(SchemaError);
      }
      var found := BoardIndex(boards, boardId);
      if found.None? {
        return Threw(RecordNotFound);
      }
      ghost var oldBoards := boards;
      boards := boards[found.value := boards[found.value].(teamSize := teamSize.Floor)];
      SameBoardIds(oldBoards, boards);
      ResetKeepsCards(cards, columns, boardId);
      columns := ResetLimits(columns, boardId);
      r := Done(true);
    }
  }

  lemma FoundAtEnd(boards: seq<Board>, b: Board)
    requires BoardFor(boards, b.saleOrigin).None?
    ensures BoardFor(boards + [b], b.saleOrigin) == Some(b)
  {
    if boards != [] {
      assert (boards + [b])[1..] == boards[1..] + [b];
      FoundAtEnd(boards[1..], b);
    }
  }

  /** Replacing a card by its moved self keeps the card invariant when the
      move stays on its board, lands in an existing column, and keeps a mark only inside an order-0 column. */
  lemma MovePreservesCards(cards: seq<Card>, columns: seq<Column>, i: nat, moved: Card)
    requires CardsValid(cards, columns) && i < |cards|
    requires moved.id == cards[i].id
    requires ColumnOf(columns, moved.columnId).Some?
    requires BoardOf(columns, moved.columnId) == BoardOf(columns, cards[i].columnId)
    requires moved.isNext ==> cards[i].isNext && OrderOf(columns, moved.columnId) == Some(0)
    ensures CardsValid(cards[i := moved], columns)
  {
    var after := cards[i := moved];
    forall a, b | 0 <= a < |after| && 0 <= b < |after| && after[a].isNext && after[b].isNext
      && BoardOf(columns, after[a].columnId) == BoardOf(columns, after[b].columnId)
      ensures a == b
    {
      assert cards[a].isNext && cards[b].isNext;
      assert BoardOf(columns, cards[a].columnId) == BoardOf(columns, cards[b].columnId);
    }
  }

  /** toggleIsNext's two updates: every card of the board is unmarked, then
      card `i` is marked. */
  function MarkNext(cards: seq<Card>, columns: seq<Column>, i: nat, boardId: string): (r: seq<Card>)
    requires CardsValid(cards, columns) && i < |cards|
    requires BoardOf(columns, cards[i].columnId) == Some(boardId) && OrderOf(columns, cards[i].columnId) == Some(0)
    ensures |r| == |cards|
    ensures forall k :: 0 <= k < |cards| ==>
      r[k] == cards[k].(isNext := if k == i then true
                                  else if BoardOf(columns, cards[k].columnId) == Some(boardId) then false
                                  else cards[k].isNext)
    ensures forall k :: 0 <= k < |r| ==> (r[k].isNext && BoardOf(columns, r[k].columnId) == Some(boardId) <==> k == i)
    ensures CardsValid(r, columns)
  {
    var r := seq(|cards|, k requires 0 <= k < |cards| =>
      cards[k].(isNext := if k == i then true
                          else if BoardOf(columns, cards[k].columnId) == Some(boardId) then false
                          else cards[k].isNext));
    forall a, b | 0 <= a < |r| && 0 <= b < |r| && r[a].isNext && r[b].isNext
      && BoardOf(columns, r[a].columnId) == BoardOf(columns, r[b].columnId)
      ensures a == b
    {
      if a != i && b != i {
        assert cards[a].isNext && cards[b].isNext;
      }
    }
    r
  }

  /** Dropping card `i` keeps the card invariant and every other card. */
  lemma RemovePreservesCards(cards: seq<Card>, columns: seq<Column>, i: nat)
    requires CardsValid(cards, columns) && i < |cards|
    ensures CardsValid(cards[..i] + cards[i + 1..], columns)
    ensures forall c :: c in cards[..i] + cards[i + 1..] <==> c in cards && c.id != cards[i].id
  {
    var after := cards[..i] + cards[i + 1..];
    assert forall k :: 0 <= k < |after| ==> after[k] == cards[if k < i then k else k + 1];
    assert CardsPlaced(after, columns) && NextInBacklog(after, columns);
    RemoveKeepsDistinct(cards, i);
    RemoveKeepsSingleNext(cards, columns, i);
    RemoveKeepsOthers(cards, i);
  }

  lemma RemoveKeepsDistinct(cards: seq<Card>, i: nat)
    requires CardIdsDistinct(cards) && i < |cards|
    ensures CardIdsDistinct(cards[..i] + cards[i + 1..])
  {
    var after := cards[..i] + cards[i + 1..];
    assert forall k :: 0 <= k < |after| ==> after[k] == cards[if k < i then k else k + 1];
  }

  lemma RemoveKeepsSingleNext(cards: seq<Card>, columns: seq<Column>, i: nat)
    requires SingleNextPerBoard(cards, columns) && i < |cards|
    ensures SingleNextPerBoard(cards[..i] + cards[i + 1..], columns)
  {
    var after := cards[..i] + cards[i + 1..];
    assert forall k :: 0 <= k < |after| ==> after[k] == cards[if k < i then k else k + 1];
  }

  lemma SpliceAt<T>(s: seq<T>, i: nat, k: nat)
    requires i < |s| && k < |s| - 1
    ensures |s[..i] + s[i + 1..]| == |s| - 1
    ensures (s[..i] + s[i + 1..])[k] == s[if k < i then k else k + 1]
  {
  }

  lemma RemoveKeepsOthers(cards: seq<Card>, i: nat)
    requires i < |cards| && forall a, b :: 0 <= a < b < |cards| ==> cards[a].id != cards[b].id
    ensures forall c :: c in cards[..i] + cards[i + 1..] <==> c in cards && c.id != cards[i].id
  {
    var after := cards[..i] + cards[i + 1..];
    forall c | c in cards && c.id != cards[i].id ensures c in after {
      var k :| 0 <= k < |cards| && cards[k] == c;
      var j := if k < i then k else k - 1;
      SpliceAt(cards, i, j);
      assert after[j] == c;
    }
    forall c | c in after ensures c in cards && c.id != cards[i].id {
      var k :| 0 <= k < |after| && after[k] == c;
      SpliceAt(cards, i, k);
      var j := if k < i then k else k + 1;
      assert cards[j] == c && j != i;
    }
  }

  /** A new unmarked card with a fresh id, in an existing column, keeps the card invariant. */
  lemma AddPreservesCards(cards: seq<Card>, columns: seq<Column>, card: Card)
    requires CardsValid(cards, columns) && CardIndex(cards, card.id).None?
    requires ColumnOf(columns, card.columnId).Some? && !card.isNext
    ensures CardsValid(cards + [card], columns)
  {
    var after := cards + [card];
    forall i, j | 0 <= i < j < |after| ensures after[i].id != after[j].id {
      if j == |cards| { assert after[i] == cards[i]; } else { assert after[i] == cards[i] && after[j] == cards[j]; }
    }
    forall i, j | 0 <= i < |after| && 0 <= j < |after| && after[i].isNext && after[j].isNext
      && BoardOf(columns, after[i].columnId) == BoardOf(columns, after[j].columnId)
      ensures i == j
    {
      assert i < |cards| && j < |cards|;
      assert after[i] == cards[i] && after[j] == cards[j];
    }
    forall i | 0 <= i < |after| ensures ColumnOf(columns, after[i].columnId).Some? {
      if i < |cards| { assert after[i] == cards[i]; }
    }
    forall i | 0 <= i < |after| && after[i].isNext ensures OrderOf(columns, after[i].columnId) == Some(0) {
      assert after[i] == cards[i];
    }
  }

  /** Columns with fresh ids appended after the existing ones keep every
      card where it was. */
  lemma NewColumnsKeepCards(cards: seq<Card>, columns: seq<Column>, added: seq<Column>)
    requires ColumnsValid(columns) && CardsValid(cards, columns) && ColumnsValid(added)
    requires forall k :: 0 <= k < |added| ==> ColumnOf(columns, added[k].id).None?
    ensures ColumnsValid(columns + added) && CardsValid(cards, columns + added)
  {
    var all := columns + added;
    forall k | 0 <= k < |cards|
      ensures ColumnOf(all, cards[k].columnId) == ColumnOf(columns, cards[k].columnId)
    {
      ColumnOfAppend(columns, added, cards[k].columnId);
    }
    assert forall k :: 0 <= k < |cards| ==> BoardOf(all, cards[k].columnId) == BoardOf(columns, cards[k].columnId);
    assert forall k :: 0 <= k < |cards| ==> OrderOf(all, cards[k].columnId) == OrderOf(columns, cards[k].columnId);
    forall i, j | 0 <= i < j < |all| ensures all[i].id != all[j].id {
      if j >= |columns| && i < |columns| {
        assert all[j] == added[j - |columns|];
      }
    }
  }

  lemma {:induction false} BoardIndexAppend(boards: seq<Board>, b: Board)
    ensures BoardIndex(boards + [b], b.id).Some?
    ensures forall id :: BoardIndex(boards, id).Some? ==> BoardIndex(boards + [b], id).Some?
  {
    assert (boards + [b])[|boards|] == b;
    forall id | BoardIndex(boards, id).Some? ensures BoardIndex(boards + [b], id).Some? {
      assert (boards + [b])[BoardIndex(boards, id).value] == boards[BoardIndex(boards, id).value];
    }
  }

  /** Board lists with the same ids row by row find the same ids. */
  lemma SameBoardIds(a: seq<Board>, b: seq<Board>)
    requires |a| == |b| && forall k :: 0 <= k < |a| ==> a[k].id == b[k].id
    ensures forall id :: BoardIndex(a, id).Some? <==> BoardIndex(b, id).Some?
  {
    forall id ensures BoardIndex(a, id).Some? <==> BoardIndex(b, id).Some? {
      if BoardIndex(a, id).Some? { assert b[BoardIndex(a, id).value].id == id; }
      if BoardIndex(b, id).Some? { assert a[BoardIndex(b, id).value].id == id; }
    }
  }

  /** updateBoardTeamSize's `updateMany`, over every column. */
  function ResetLimits(columns: seq<Column>, boardId: string): (r: seq<Column>)
    ensures |r| == |columns|
    ensures forall k :: 0 <= k < |columns| ==> r[k] == ResetWip(columns[k], boardId)
  {
    seq(|columns|, k requires 0 <= k < |columns| => ResetWip(columns[k], boardId))
  }

  /** Resetting limits moves no column and no card. */
  lemma ResetKeepsCards(cards: seq<Card>, columns: seq<Column>, boardId: string)
    requires ColumnsValid(columns) && CardsValid(cards, columns)
    ensures ColumnsValid(ResetLimits(columns, boardId)) && CardsValid(cards, ResetLimits(columns, boardId))
  {
    var reset := ResetLimits(columns, boardId);
    forall k | 0 <= k < |cards|
      ensures BoardOf(reset, cards[k].columnId) == BoardOf(columns, cards[k].columnId)
      ensures OrderOf(reset, cards[k].columnId) == OrderOf(columns, cards[k].columnId)
      ensures ColumnOf(reset, cards[k].columnId).Some?
    {
      SamePlacement(columns, reset, cards[k].columnId);
    }
  }
}
