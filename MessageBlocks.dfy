/** The Slack Block Kit messages of the card approval flow
    (api/slack/lib/message-blocks.ts). A block keeps its type and its text;
    the fixed `plain_text`/`mrkdwn` wrappers and `emoji: true` flags are the
    same in every instance and are not represented. How a JS number prints
    in a template is the `numberText` parameter. */
module MessageBlocks {
  import opened Common
  import opened JsText
  import opened Kanban

  datatype Button = Button(caption: string, style: string, actionId: string, value: string)

  datatype Block =
    | Header(text: string)
    | Context(elements: seq<string>)
    | Divider
    | Section(text: string)
    | Actions(blockId: string, buttons: seq<Button>)

  /** SALE_ORIGIN_LABELS, one entry per unit. */
  function UnitLabel(o: SaleOrigin): string {
    match o
    case InternationalLaw => "Direito Internacional"
    case FamilyLaw => "Direito de Fam\U{00ED}lia"
    case BankingLaw => "Direito Banc\U{00E1}rio"
    case ProceduralLaw => "Direito Processual"
    case Administrative => "Administrativo"
  }

  /** `SALE_ORIGIN_LABELS[saleOrigin] || saleOrigin`: a unit's name gets its
      label, any other string is shown as it is. */
  function SaleOriginLabel(s: string): (r: string)
    ensures forall o :: s == SaleOriginName(o) ==> r == UnitLabel(o)
    ensures (forall o :: s != SaleOriginName(o)) ==> r == s
  {
    if s == SaleOriginName(InternationalLaw) then UnitLabel(InternationalLaw)
    else if s == SaleOriginName(FamilyLaw) then UnitLabel(FamilyLaw)
    else if s == SaleOriginName(BankingLaw) then UnitLabel(BankingLaw)
    else if s == SaleOriginName(ProceduralLaw) then UnitLabel(ProceduralLaw)
    else if s == SaleOriginName(Administrative) then UnitLabel(Administrative)
    else s
  }

  /** truncateText: a text that fits stays as it is; a longer one keeps
      `maxLength - 3` characters (none when that is negative, as `substring`
      clamps it) and gains "...". */
  function Truncate(text: string, maxLength: nat): (r: string)
    ensures |text| <= maxLength ==> r == text
    ensures |text| > maxLength ==> |r| >= 3 && r[|r| - 3..] == "..." && StartsWith(text, r[..|r| - 3])
    ensures |text| > maxLength && maxLength >= 3 ==> |r| == maxLength
    ensures |text| > maxLength && maxLength < 3 ==> r == "..."
  {
    if |text| <= maxLength then text
    else
      var keep := if maxLength >= 3 then maxLength - 3 else 0;
      var r := text[..keep] + "...";
      assert r[..|r| - 3] == text[..keep];
      r
  }

  /** Truncating to a length of at least 3 is idempotent: the result fits. */
  lemma TruncateIdempotent(text: string, maxLength: nat)
    requires maxLength >= 3
    ensures Truncate(Truncate(text, maxLength), maxLength) == Truncate(text, maxLength)
  {
  }

  /** `Math.ceil(hours / 8)`: the number of eight-hour days. */
  function Days(hours: real): (r: int)
    ensures (r - 1) as real < hours / 8.0 <= r as real
  {
    var f := (hours / 8.0).Floor;
    if f as real == hours / 8.0 then f else f + 1
  }

  const PreviewTitle := "\U{1F4CB} Cards Gerados para Aprova\U{00E7}\U{00E3}o"
  const SpecHeading := "\U{1F4DD} *Especifica\U{00E7}\U{00E3}o:*\n"
  const ObjectiveHeading := "\U{1F3AF} *Objetivo:*\n"
  const CriteriaHeading := "\U{2705} *Crit\U{00E9}rios de Aceita\U{00E7}\U{00E3}o:*\n"
  const PromptText := "\U{1F446} *O que deseja fazer?*\n\U{2022} \U{2705} Aprovar e criar cards\n\U{2022} \U{274C} Rejeitar\n\U{2022} \U{1F4DD} Responda nesta thread para solicitar altera\U{00E7}\U{00F5}es"

  /** The first line of a card's section: its number, counted from 1, its
      name, its hours and its days. */
  function CardTitle(card: GeneratedCard, index: nat, numberText: real -> string): string {
    "*" + (NatToString(index + 1) + TitleRest(card, numberText))
  }

  function TitleRest(card: GeneratedCard, numberText: real -> string): string {
    ". " + card.name + "*\n\U{23F1}\U{FE0F} " + numberText(card.estimatedHours)
    + "h (" + numberText(Days(card.estimatedHours) as real) + " dias)"
  }

  /** The five blocks of one card. */
  function CardBlocks(card: GeneratedCard, index: nat, numberText: real -> string): seq<Block> {
    [Section(CardTitle(card, index, numberText)),
     Section(SpecHeading + Truncate(card.specification, 500)),
     Section(ObjectiveHeading + Truncate(card.objective, 300)),
     Section(CriteriaHeading + Truncate(card.acceptanceCriteria, 400)),
     Divider]
  }

  /** A card's blocks: its title, its three texts each cut to 500, 300 and
      400 characters under their headings, and a divider. */
  lemma CardBlocksShape(card: GeneratedCard, index: nat, numberText: real -> string)
    ensures var r := CardBlocks(card, index, numberText);
      |r| == 5 && r[4] == Divider && (forall k :: 0 <= k < 4 ==> r[k].Section?)
      && r[0].text == CardTitle(card, index, numberText)
      && r[1].text == SpecHeading + Truncate(card.specification, 500) && |r[1].text| <= |SpecHeading| + 500
      && r[2].text == ObjectiveHeading + Truncate(card.objective, 300) && |r[2].text| <= |ObjectiveHeading| + 300
      && r[3].text == CriteriaHeading + Truncate(card.acceptanceCriteria, 400) && |r[3].text| <= |CriteriaHeading| + 400
  {
  }

  /** The card number in a title reads back as the card's position plus one. */
  lemma {:induction false} CardNumberReadable(card: GeneratedCard, index: nat, numberText: real -> string)
    ensures DecValue(DigitPrefix(CardTitle(card, index, numberText)[1..])) == index + 1
  {
    var digits := NatToString(index + 1);
    var rest := TitleRest(card, numberText);
    assert rest[0] == '.';
    assert CardTitle(card, index, numberText)[1..] == digits + rest;
    DigitPrefixOfDigits(digits, rest);
  }

  function UnitLine(saleOrigin: string): string { "*Unidade:* " + SaleOriginLabel(saleOrigin) }

  function TotalLine(count: nat): string { "*Total:* " + NatToString(count) + " card(s)" }

  /** The approve and reject buttons, both carrying the approval's id. */
  function ApprovalActions(approvalId: string): (b: Block)
    ensures b.Actions? && |b.blockId| == 9 + |approvalId| && b.blockId[..9] == "approval_" && b.blockId[9..] == approvalId
    ensures |b.buttons| == 2 && b.buttons[0].actionId == "approve_cards" && b.buttons[1].actionId == "reject_cards"
    ensures forall k :: 0 <= k < |b.buttons| ==> b.buttons[k].value == approvalId
  {
    Actions("approval_" + approvalId,
            [Button("\U{2705} Aprovar", "primary", "approve_cards", approvalId),
             Button("\U{274C} Rejeitar", "danger", "reject_cards", approvalId)])
  }

  /** The header, the unit and the count, and a divider. */
  function PreviewHead(cards: seq<GeneratedCard>, saleOrigin: string): seq<Block> {
    [Header(PreviewTitle), Context([UnitLine(saleOrigin), TotalLine(|cards|)]), Divider]
  }

  /** The groups of blocks one after another. */
  function Flatten(groups: seq<seq<Block>>): (r: seq<Block>)
    decreases |groups|
  {
    if groups == [] then [] else Flatten(groups[..|groups| - 1]) + groups[|groups| - 1]
  }

  /** Five-block groups, flattened, put group k at 5k. */
  lemma {:induction false} FlattenFives(groups: seq<seq<Block>>)
    requires forall k :: 0 <= k < |groups| ==> |groups[k]| == 5
    ensures |Flatten(groups)| == 5 * |groups|
    ensures forall k :: 0 <= k < |groups| ==> Flatten(groups)[5 * k..5 * k + 5] == groups[k]
    decreases |groups|
  {
    if groups != [] {
      var init := groups[..|groups| - 1];
      var last := groups[|groups| - 1];
      FlattenFives(init);
      var f := Flatten(init);
      assert Flatten(groups) == f + last;
      forall k | 0 <= k < |groups|
        ensures Flatten(groups)[5 * k..5 * k + 5] == groups[k]
      {
        if k < |init| {
          assert (f + last)[5 * k..5 * k + 5] == f[5 * k..5 * k + 5];
        } else {
          assert (f + last)[5 * k..5 * k + 5] == last;
        }
      }
    }
  }

  lemma FlattenSnoc(groups: seq<seq<Block>>, group: seq<Block>)
    ensures Flatten(groups + [group]) == Flatten(groups) + group
  {
    assert (groups + [group])[..|groups|] == groups;
  }

  /** Where a three-block head, `n` five-block groups and a tail land once
      concatenated. */
  lemma ConcatLayout(head: seq<Block>, groups: seq<Block>, tail: seq<Block>, n: nat)
    requires |head| == 3 && |groups| == 5 * n
    ensures var b := head + groups + tail;
      |b| == 5 * n + 3 + |tail| && b[..3] == head && b[5 * n + 3..] == tail
      && forall k :: 0 <= k < n ==> b[3 + 5 * k..8 + 5 * k] == groups[5 * k..5 * k + 5]
  {
    var b := head + groups + tail;
    assert b[3..3 + 5 * n] == groups;
    forall k | 0 <= k < n
      ensures b[3 + 5 * k..8 + 5 * k] == groups[5 * k..5 * k + 5]
    {
      assert b[3 + 5 * k..8 + 5 * k] == b[3..3 + 5 * n][5 * k..5 * k + 5];
    }
  }

  /** A head, the flattened five-block groups and a tail, concatenated: the
      head first, group k at 3 + 5k, the tail last. */
  lemma PreviewLayout(head: seq<Block>, groups: seq<seq<Block>>, tail: seq<Block>)
    requires |head| == 3 && forall k :: 0 <= k < |groups| ==> |groups[k]| == 5
    ensures var b := head + Flatten(groups) + tail;
      |b| == 5 * |groups| + 3 + |tail| && b[..3] == head && b[5 * |groups| + 3..] == tail
      && forall k :: 0 <= k < |groups| ==> b[3 + 5 * k..8 + 5 * k] == groups[k]
  {
    FlattenFives(groups);
    ConcatLayout(head, Flatten(groups), tail, |groups|);
  }

  /** The five blocks of every card, card by card. */
  function CardGroups(cards: seq<GeneratedCard>, numberText: real -> string): (groups: seq<seq<Block>>)
    ensures |groups| == |cards|
    ensures forall k :: 0 <= k < |cards| ==> groups[k] == CardBlocks(cards[k], k, numberText) && |groups[k]| == 5
  {
    seq(|cards|, k requires 0 <= k < |cards| => CardBlocks(cards[k], k, numberText))
  }

  /** The `cards.forEach` of buildCardsPreviewBlocks: the card blocks
      appended in card order. */
  method CardsBody(cards: seq<GeneratedCard>, numberText: real -> string) returns (body: seq<Block>)
    ensures body == Flatten(CardGroups(cards, numberText))
  {
    ghost var groups := CardGroups(cards, numberText);
    body := [];
    for index := 0 to |cards|
      invariant body == Flatten(groups[..index])
    {
      var group := CardBlocks(cards[index], index, numberText);
      TakeOneMore(groups, index);
      FlattenSnoc(groups[..index], group);
      body := body + group;
    }
    assert groups[..|cards|] == groups;
  }

  /** buildCardsPreviewBlocks: the header, the unit and the card count, a
      divider, five blocks per card in order, the prompt, and the buttons. */
  method BuildCardsPreviewBlocks(cards: seq<GeneratedCard>, saleOrigin: string, approvalId: string,
                                 numberText: real -> string) returns (blocks: seq<Block>)
    ensures |blocks| == 5 * |cards| + 5
    ensures blocks[..3] == PreviewHead(cards, saleOrigin)
    ensures forall k :: 0 <= k < |cards| ==> blocks[3 + 5 * k..8 + 5 * k] == CardBlocks(cards[k], k, numberText)
    ensures blocks[5 * |cards| + 3..] == [Section(PromptText), ApprovalActions(approvalId)]
  {
    var body := CardsBody(cards, numberText);
    var head, tail := PreviewHead(cards, saleOrigin), [Section(PromptText), ApprovalActions(approvalId)];
    PreviewLayout(head, CardGroups(cards, numberText), tail);
    blocks := head + body + tail;
  }

  /** buildSuccessBlocks: one section whose number, read back after the
      check mark and the bold marker, is the count of cards created. */
  function SuccessBlocks(cardsCount: nat): (blocks: seq<Block>)
    ensures |blocks| == 1 && blocks[0].Section?
    ensures |blocks[0].text| > 3 && DecValue(DigitPrefix(blocks[0].text[3..])) == cardsCount
  {
    var text := "\U{2705} *" + (NatToString(cardsCount) + SuccessTail);
    assert text[3..] == NatToString(cardsCount) + SuccessTail;
    assert SuccessTail[0] == ' ';
    DigitPrefixOfDigits(NatToString(cardsCount), SuccessTail);
    [Section(text)]
  }

  const SuccessTail := " " + "card(s) criado(s) com sucesso!*\nOs cards foram adicionados ao Backlog do Kanban."

  /** buildRejectedBlocks: one section opening with the cross mark. */
  function RejectedBlocks(): (blocks: seq<Block>)
    ensures |blocks| == 1 && blocks[0].Section? && |blocks[0].text| > 0 && blocks[0].text[0] == '\U{274C}'
  {
    [Section("\U{274C} " + "*Cards rejeitados.*\nNenhum card foi criado.")]
  }

  /** buildRevisionBlocks: one section opening with the memo mark. */
  function RevisionBlocks(): (blocks: seq<Block>)
    ensures |blocks| == 1 && blocks[0].Section? && |blocks[0].text| > 0 && blocks[0].text[0] == '\U{1F4DD}'
  {
    [Section("\U{1F4DD} " + "*Solicita\U{00E7}\U{00E3}o de altera\U{00E7}\U{00E3}o recebida.*\nProcessando suas sugest\U{00F5}es...")]
  }

  /** buildErrorBlocks: one section opening with the warning sign and
      ending with the message. */
  function ErrorBlocks(message: string): (blocks: seq<Block>)
    ensures |blocks| == 1 && blocks[0].Section? && |blocks[0].text| > 0 && blocks[0].text[0] == '\U{26A0}'
    ensures EndsWith(blocks[0].text, message)
  {
    [Section("\U{26A0}\U{FE0F} " + "*Erro:* " + message)]
  }

  /** Each reply is one section; the success reply names how many cards
      were created, so different counts give different replies; the error
      reply ends with its message and is never mistaken for another reply. */
  lemma {:induction false} ReplyBlocks(n: nat, m: nat, message: string)
    ensures |SuccessBlocks(n)| == 1 && |RejectedBlocks()| == 1 && |RevisionBlocks()| == 1 && |ErrorBlocks(message)| == 1
    ensures DecValue(DigitPrefix(SuccessBlocks(n)[0].text[3..])) == n
    ensures SuccessBlocks(n) == SuccessBlocks(m) ==> n == m
    ensures EndsWith(ErrorBlocks(message)[0].text, message)
    ensures ErrorBlocks(message) != SuccessBlocks(n) && ErrorBlocks(message) != RejectedBlocks()
            && ErrorBlocks(message) != RevisionBlocks()
  {
    var rest := SuccessTail;
    assert rest[0] == ' ';
    assert SuccessBlocks(n)[0].text[3..] == NatToString(n) + rest;
    assert SuccessBlocks(m)[0].text[3..] == NatToString(m) + rest;
    DigitPrefixOfDigits(NatToString(n), rest);
    DigitPrefixOfDigits(NatToString(m), rest);
    var e := ErrorBlocks(message)[0].text;
    assert e[0] == '\U{26A0}';
    assert SuccessBlocks(n)[0].text[0] == '\U{2705}';
    assert RejectedBlocks()[0].text[0] == '\U{274C}';
    assert RevisionBlocks()[0].text[0] == '\U{1F4DD}';
  }
}
