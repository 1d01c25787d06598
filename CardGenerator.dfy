/** The card half of the Slack flow (api/slack/lib/card-generator.ts): the
    shape filter applied to the language model's JSON answer, and the
    creation of approved cards in the order-0 column of the unit's board.
    The request to the model is not part of this model; the parsed answer
    is the input. */
module CardGenerator {
  import opened Common
  import opened Kanban

  /** A value `JSON.parse` can return. */
  datatype Json = JNull | JBool(b: bool) | JNumber(n: real) | JString(s: string)
                | JArray(items: seq<Json>) | JObject(fields: map<string, Json>)

  /** A property read on a non-null value: only an object has own fields;
      anything else reads as undefined. */
  function Field(j: Json, key: string): Option<Json> {
    if j.JObject? && key in j.fields then Some(j.fields[key]) else None
  }

  function TextField(j: Json, key: string): Option<string> {
    match Field(j, key)
    case Some(JString(s)) => Some(s)
    case _ => None
  }

  function NumberField(j: Json, key: string): Option<real> {
    match Field(j, key)
    case Some(JNumber(n)) => Some(n)
    case _ => None
  }

  /** The type guard: four string fields and a numeric estimate. */
  function AsCard(j: Json): (r: Option<GeneratedCard>)
    ensures r.Some? <==> TextField(j, "name").Some? && TextField(j, "specification").Some? && TextField(j, "objective").Some?
                         && TextField(j, "acceptanceCriteria").Some? && NumberField(j, "estimatedHours").Some?
    ensures r.Some? ==> r.value == GeneratedCard(TextField(j, "name").value, TextField(j, "specification").value,
                                                 TextField(j, "objective").value, TextField(j, "acceptanceCriteria").value,
                                                 NumberField(j, "estimatedHours").value)
    ensures r.Some? ==> j.JObject?
  {
    var name := TextField(j, "name");
    var specification := TextField(j, "specification");
    var objective := TextField(j, "objective");
    var criteria := TextField(j, "acceptanceCriteria");
    var hours := NumberField(j, "estimatedHours");
    if name.None? || specification.None? || objective.None? || criteria.None? || hours.None? then None
    else Some(GeneratedCard(name.value, specification.value, objective.value, criteria.value, hours.value))
  }

  /** `cards.filter(isGeneratedCard)` on entries none of which is null. */
  function FilterCards(xs: seq<Json>): (r: seq<GeneratedCard>)
    ensures |r| <= |xs|
    ensures forall c :: c in r <==> exists i :: 0 <= i < |xs| && AsCard(xs[i]) == Some(c)
  {
    if xs == [] then []
    else
      var rest := FilterCards(xs[1..]);
      MembersStep(xs);
      match AsCard(xs[0])
      case None => rest
      case Some(c) => [c] + rest
  }

  /** An entry of a non-empty list is its head or an entry of its tail. */
  lemma MembersStep(xs: seq<Json>)
    requires xs != []
    ensures forall c :: (exists i :: 0 <= i < |xs| && AsCard(xs[i]) == Some(c)) <==>
                        AsCard(xs[0]) == Some(c) || exists i :: 0 <= i < |xs[1..]| && AsCard(xs[1..][i]) == Some(c)
  {
    forall c ensures (exists i :: 0 <= i < |xs| && AsCard(xs[i]) == Some(c)) ==>
                     AsCard(xs[0]) == Some(c) || exists i :: 0 <= i < |xs[1..]| && AsCard(xs[1..][i]) == Some(c)
    {
      if i :| 0 <= i < |xs| && AsCard(xs[i]) == Some(c) {
        if i > 0 {
          assert xs[1..][i - 1] == xs[i];
        }
      }
    }
    forall c, i | 0 <= i < |xs[1..]| && AsCard(xs[1..][i]) == Some(c)
      ensures exists k :: 0 <= k < |xs| && AsCard(xs[k]) == Some(c)
    {
      assert xs[i + 1] == xs[1..][i];
    }
  }

  /** The filter keeps the order of the entries: filtering two lists one
      after the other is filtering their concatenation. */
  lemma {:induction false} FilterCardsAppend(a: seq<Json>, b: seq<Json>)
    ensures FilterCards(a + b) == FilterCards(a) + FilterCards(b)
  {
    if a == [] {
      assert a + b == b;
    } else {
      assert (a + b)[0] == a[0];
      assert (a + b)[1..] == a[1..] + b;
      FilterCardsAppend(a[1..], b);
      match AsCard(a[0])
      case None =>
      case Some(c) =>
        assert FilterCards(a + b) == [c] + (FilterCards(a[1..]) + FilterCards(b));
    }
  }

  /** A list made only of well-shaped cards passes the filter whole. */
  lemma {:induction false} AllShapedKept(xs: seq<Json>)
    requires forall i :: 0 <= i < |xs| ==> AsCard(xs[i]).Some?
    ensures |FilterCards(xs)| == |xs|
    ensures forall i :: 0 <= i < |xs| ==> FilterCards(xs)[i] == AsCard(xs[i]).value
  {
    if xs != [] {
      AllShapedKept(xs[1..]);
    }
  }

  /** `Array.isArray(parsed.cards) ? parsed.cards : parsed`, with `.filter`
      then needing an array: none when that read or call throws. */
  function CardList(parsed: Json): (r: Option<seq<Json>>)
    ensures Field(parsed, "cards").Some? && Field(parsed, "cards").value.JArray? ==> r == Some(Field(parsed, "cards").value.items)
    ensures parsed.JArray? ==> r == Some(parsed.items)
    ensures r.Some? <==> parsed.JArray? || (Field(parsed, "cards").Some? && Field(parsed, "cards").value.JArray?)
  {
    match parsed
    case JArray(items) => Some(items)
    case _ =>
      match Field(parsed, "cards")
      case Some(JArray(items)) => Some(items)
      case _ => None
  }

  /** The cards of a parsed answer: none when the answer throws a
      `TypeError` (it is no list, or a list entry is null); otherwise the
      well-shaped entries in order. */
  function GeneratedCards(parsed: Json): (r: Option<seq<GeneratedCard>>)
    ensures r.None? <==> CardList(parsed).None? || JNull in CardList(parsed).value
    ensures r.Some? ==> forall c :: c in r.value <==> exists i :: 0 <= i < |CardList(parsed).value| && AsCard(CardList(parsed).value[i]) == Some(c)
    ensures r.Some? ==> |r.value| <= |CardList(parsed).value|
  {
    match CardList(parsed)
    case None => None
    case Some(xs) => if JNull in xs then None else Some(FilterCards(xs))
  }

  /** An answer wrapping a list of well-shaped cards under "cards" gives
      those cards, in order. */
  lemma WrappedCardsKept(xs: seq<Json>, rest: map<string, Json>)
    requires forall i :: 0 <= i < |xs| ==> AsCard(xs[i]).Some?
    ensures var r := GeneratedCards(JObject(rest["cards" := JArray(xs)]));
      r.Some? && |r.value| == |xs| && forall i :: 0 <= i < |xs| ==> r.value[i] == AsCard(xs[i]).value
  {
    AllShapedKept(xs);
    assert JNull !in xs by {
      forall i | 0 <= i < |xs| ensures xs[i] != JNull { assert AsCard(xs[i]).Some?; }
    }
  }

  // ---------------------------------------------------------------------
  // Creating the approved cards

  /** Where createCardsInColumn starts: 1000 above the column's last card,
      or 1000 in an empty column. */
  function StartPosition(cards: seq<Card>, columnId: string): (r: real)
    ensures forall k :: 0 <= k < |cards| && cards[k].columnId == columnId ==> cards[k].position < r
    ensures (forall k :: 0 <= k < |cards| ==> cards[k].position > 0.0) ==> r >= 1000.0
  {
    var cs := InColumn(cards, columnId, None);
    var ps := Positions(cs);
    forall k | 0 <= k < |cards| && cards[k].columnId == columnId ensures cards[k].position in ps {
      assert cards[k] in cs;
      var j :| 0 <= j < |cs| && cs[j] == cards[k];
      assert ps[j] == cards[k].position;
    }
    match MaxOf(ps)
    case None => 1000.0
    case Some(m) =>
      assert m in ps;
      var j :| 0 <= j < |ps| && ps[j] == m;
      assert cs[j] in cards;
      m + 1000.0
  }

  /** The rows createCardsInColumn writes: card k at `start + 1000·k`, not
      marked next. */
  function NewCards(cards: seq<GeneratedCard>, columnId: string, ids: seq<string>, start: real): (r: seq<Card>)
    requires |ids| == |cards|
    ensures |r| == |cards|
    ensures forall k :: 0 <= k < |cards| ==> r[k] == Card(ids[k], columnId, cards[k], start + 1000.0 * k as real, false)
  {
    seq(|cards|, k requires 0 <= k < |cards| => Card(ids[k], columnId, cards[k], start + 1000.0 * k as real, false))
  }

  /** The new positions climb in steps of 1000 from the start, which is
      above every card the column already holds. */
  lemma NewPositionsClimb(cards: seq<GeneratedCard>, columnId: string, ids: seq<string>, existing: seq<Card>)
    requires |ids| == |cards|
    ensures var added := NewCards(cards, columnId, ids, StartPosition(existing, columnId));
      StrictlyAscending(Positions(added))
      && forall i, k :: 0 <= i < |existing| && existing[i].columnId == columnId && 0 <= k < |added| ==>
           existing[i].position < added[k].position
  {
    var start := StartPosition(existing, columnId);
    var added := NewCards(cards, columnId, ids, start);
    var ps := Positions(added);
    forall i, j | 0 <= i < j < |ps| ensures ps[i] < ps[j] {
      assert ps[i] == start + 1000.0 * i as real && ps[j] == start + 1000.0 * j as real;
    }
    forall i, k | 0 <= i < |existing| && existing[i].columnId == columnId && 0 <= k < |added|
      ensures existing[i].position < added[k].position
    {
      assert added[k].position == start + 1000.0 * k as real;
    }
  }

  /** createCardsInColumn: the cards in order, each 1000 above the one
      before; answers how many were created. */
  method CreateCardsInColumn(store: KanbanStore, cards: seq<GeneratedCard>, columnId: string, ids: seq<string>) returns (n: nat)
    requires store.Valid()
    requires ColumnOf(store.columns, columnId).Some?
    requires |ids| == |cards| && forall i, j :: 0 <= i < j < |ids| ==> ids[i] != ids[j]
    requires forall k :: 0 <= k < |ids| ==> CardIndex(store.cards, ids[k]).None?
    modifies store`cards
    ensures store.Valid()
    ensures n == |cards|
    ensures store.cards == old(store.cards) + NewCards(cards, columnId, ids, StartPosition(old(store.cards), columnId))
  {
    var position := StartPosition(store.cards, columnId);
    ghost var start := position;
    ghost var before := store.cards;
    ghost var added := NewCards(cards, columnId, ids, start);
    for k := 0 to |cards|
      invariant store.cards == before + added[..k]
      invariant position == start + 1000.0 * k as real
      invariant CardsValid(store.cards, store.columns)
    {
      var card := Card(ids[k], columnId, cards[k], position, false);
      NewCardFits(before, store.columns, cards, columnId, ids, start, k);
      assert card == added[k];
      store.cards := store.cards + [card];
      assert store.cards == before + added[..k + 1];
      assert 1000.0 * (k + 1) as real == 1000.0 * k as real + 1000.0;
      position := position + 1000.0;
    }
    assert added[..|cards|] == added;
    n := |cards|;
  }

  /** Appending new card `k` after the first `k` keeps the card invariant. */
  lemma NewCardFits(before: seq<Card>, columns: seq<Column>, cards: seq<GeneratedCard>, columnId: string,
                    ids: seq<string>, start: real, k: nat)
    requires |ids| == |cards| && k < |cards| && forall i, j :: 0 <= i < j < |ids| ==> ids[i] != ids[j]
    requires CardIndex(before, ids[k]).None? && ColumnOf(columns, columnId).Some?
    requires CardsValid(before + NewCards(cards, columnId, ids, start)[..k], columns)
    ensures var added := NewCards(cards, columnId, ids, start);
      added[k] == Card(ids[k], columnId, cards[k], start + 1000.0 * k as real, false)
      && before + added[..k + 1] == before + added[..k] + [added[k]]
      && CardsValid(before + added[..k + 1], columns)
  {
    var added := NewCards(cards, columnId, ids, start);
    var card := added[k];
    assert card == Card(ids[k], columnId, cards[k], start + 1000.0 * k as real, false);
    assert card.columnId == columnId && !card.isNext;
    FreshAfterPrefix(before, added, ids, k);
    assert CardIndex(before + added[..k], card.id).None?;
    AddPreservesCards(before + added[..k], columns, card);
    PrefixSnoc(before, added, k);
  }

  lemma PrefixSnoc<T>(before: seq<T>, s: seq<T>, k: nat)
    requires k < |s|
    ensures before + s[..k + 1] == before + s[..k] + [s[k]]
  {
    TakeOneMore(s, k);
  }

  /** The first column of the board with order 0, in store order. */
  function BacklogOf(columns: seq<Column>, boardId: string): (r: Option<Column>)
    ensures r.Some? ==> r.value in columns && r.value.boardId == boardId && r.value.order == 0
    ensures r.None? <==> forall k :: 0 <= k < |columns| ==> !(columns[k].boardId == boardId && columns[k].order == 0)
  {
    if columns == [] then None
    else if columns[0].boardId == boardId && columns[0].order == 0 then Some(columns[0])
    else BacklogOf(columns[1..], boardId)
  }

  /** The board lookup of createCardsInKanban: the unit's board, created
      with the default columns when missing, and its order-0 column. */
  method BacklogFor(store: KanbanStore, saleOrigin: SaleOrigin, newBoardId: string, newColumnIds: seq<string>)
    returns (column: Option<Column>)
    requires store.Valid()
    requires BoardIndex(store.boards, newBoardId).None?
    requires |newColumnIds| == 5 && forall i, j :: 0 <= i < j < 5 ==> newColumnIds[i] != newColumnIds[j]
    requires forall k :: 0 <= k < 5 ==> ColumnOf(store.columns, newColumnIds[k]).None?
    modifies store`boards, store`columns
    ensures store.Valid()
    ensures BoardFor(old(store.boards), saleOrigin).Some? ==> store.boards == old(store.boards) && store.columns == old(store.columns)
    ensures BoardFor(old(store.boards), saleOrigin).None? ==>
      store.boards == old(store.boards) + [Board(newBoardId, saleOrigin, 3)]
      && store.columns == old(store.columns) + DefaultColumns(newBoardId, newColumnIds)
      && column == Some(DefaultColumns(newBoardId, newColumnIds)[0])
    ensures BoardFor(store.boards, saleOrigin).Some?
    ensures column == BacklogOf(store.columns, BoardFor(store.boards, saleOrigin).value.id)
  {
    var board := BoardFor(store.boards, saleOrigin);
    if board.Some? {
      return BacklogOf(store.columns, board.value.id);
    }
    ghost var columnsBefore := store.columns;
    assert forall k :: 0 <= k < |columnsBefore| ==> columnsBefore[k].boardId != newBoardId by {
      forall k | 0 <= k < |columnsBefore| ensures columnsBefore[k].boardId != newBoardId {
        assert BoardIndex(store.boards, columnsBefore[k].boardId).Some?;
      }
    }
    var created := store.CreateBoardWithColumns(saleOrigin, newBoardId, newColumnIds);
    FoundAtEnd(old(store.boards), created);
    NewBacklogFound(columnsBefore, newBoardId, newColumnIds);
    column := Some(DefaultColumns(newBoardId, newColumnIds)[0]);
  }

  /** createCardsInKanban: the cards go to the order-0 column of the
      unit's board, created with the default columns when missing; a board
      without an order-0 column throws. */
  method CreateCardsInKanban(store: KanbanStore, cards: seq<GeneratedCard>, saleOrigin: SaleOrigin,
                             newBoardId: string, newColumnIds: seq<string>, ids: seq<string>) returns (r: Outcome<nat>)
    requires store.Valid()
    requires BoardIndex(store.boards, newBoardId).None?
    requires |newColumnIds| == 5 && forall i, j :: 0 <= i < j < 5 ==> newColumnIds[i] != newColumnIds[j]
    requires forall k :: 0 <= k < 5 ==> ColumnOf(store.columns, newColumnIds[k]).None?
    requires |ids| == |cards| && forall i, j :: 0 <= i < j < |ids| ==> ids[i] != ids[j]
    requires forall k :: 0 <= k < |ids| ==> CardIndex(store.cards, ids[k]).None?
    modifies store`boards, store`columns, store`cards
    ensures store.Valid()
    ensures BoardFor(old(store.boards), saleOrigin).Some? ==> store.boards == old(store.boards) && store.columns == old(store.columns)
    ensures BoardFor(old(store.boards), saleOrigin).None? ==>
      store.boards == old(store.boards) + [Board(newBoardId, saleOrigin, 3)]
      && store.columns == old(store.columns) + DefaultColumns(newBoardId, newColumnIds)
    ensures BoardFor(store.boards, saleOrigin).Some?
    ensures r.Threw? <==> BacklogOf(store.columns, BoardFor(store.boards, saleOrigin).value.id).None?
    ensures r.Threw? ==> r.error == TypeError && store.cards == old(store.cards)
    ensures r.Done? ==>
      r.value == |cards|
      && var column := BacklogOf(store.columns, BoardFor(store.boards, saleOrigin).value.id).value;
      store.cards == old(store.cards) + NewCards(cards, column.id, ids, StartPosition(old(store.cards), column.id))
  {
    var column := BacklogFor(store, saleOrigin, newBoardId, newColumnIds);
    if column.None? {
      return Threw(TypeError);
    }
    var n := CreateCardsInColumn(store, cards, column.value.id, ids);
    r := Done(n);
  }

  /** A new board's order-0 column is its Backlog, since no existing column
      belongs to a fresh board. */
  lemma NewBacklogFound(columns: seq<Column>, boardId: string, ids: seq<string>)
    requires |ids| == 5
    requires forall k :: 0 <= k < |columns| ==> columns[k].boardId != boardId
    ensures BacklogOf(columns + DefaultColumns(boardId, ids), boardId) == Some(DefaultColumns(boardId, ids)[0])
  {
    var added := DefaultColumns(boardId, ids);
    SkipForeignColumns(columns, added, boardId);
    assert added[0].boardId == boardId && added[0].order == 0;
  }

  lemma {:induction false} SkipForeignColumns(columns: seq<Column>, added: seq<Column>, boardId: string)
    requires forall k :: 0 <= k < |columns| ==> columns[k].boardId != boardId
    ensures BacklogOf(columns + added, boardId) == BacklogOf(added, boardId)
  {
    if columns == [] {
      assert columns + added == added;
    } else {
      assert (columns + added)[1..] == columns[1..] + added;
      SkipForeignColumns(columns[1..], added, boardId);
    }
  }

  /** The k-th new id is not among the rows stored before nor among the
      first k new ones. */
  lemma FreshAfterPrefix(before: seq<Card>, added: seq<Card>, ids: seq<string>, k: nat)
    requires k < |added| == |ids|
    requires forall i :: 0 <= i < |added| ==> added[i].id == ids[i]
    requires forall i, j :: 0 <= i < j < |ids| ==> ids[i] != ids[j]
    requires CardIndex(before, ids[k]).None?
    ensures CardIndex(before + added[..k], ids[k]).None?
  {
    var all := before + added[..k];
    forall i | 0 <= i < |all| ensures all[i].id != ids[k] {
      if i >= |before| { assert all[i] == added[i - |before|]; }
    }
  }
}
