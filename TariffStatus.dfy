/** The status column of the modal's tariff table
    (components/modal/tariffTable.tsx): each row is current, future, expired
    or inactive at `now`, shown with a badge variant. */
module TariffStatus {
  import opened Common
  import ServiceModal

  predicate IsCurrent(row: ServiceModal.TariffRow, now: int) {
    row.validFrom.Some? && now >= row.validFrom.value && (row.validTo.None? || now <= row.validTo.value)
  }

  predicate IsFuture(row: ServiceModal.TariffRow, now: int) {
    row.validFrom.Some? && now < row.validFrom.value
  }

  predicate IsExpired(row: ServiceModal.TariffRow, now: int) {
    row.validTo.Some? && now > row.validTo.value && !IsCurrent(row, now)
  }

  datatype Label = Atual | Futura | Expirada | Inativa

  datatype Variant = Default | Outline | Secondary

  /** getStatusLabel: current first, then future, then expired. */
  function StatusLabel(row: ServiceModal.TariffRow, now: int): (l: Label)
    ensures l == Atual <==> IsCurrent(row, now)
    ensures l == Futura <==> !IsCurrent(row, now) && IsFuture(row, now)
    ensures l == Expirada <==> !IsCurrent(row, now) && !IsFuture(row, now) && IsExpired(row, now)
    ensures row.validFrom.Some? ==> l != Inativa
  {
    if IsCurrent(row, now) then Atual
    else if IsFuture(row, now) then Futura
    else if IsExpired(row, now) then Expirada
    else Inativa
  }

  /** getStatusVariant */
  function StatusVariant(row: ServiceModal.TariffRow, now: int): (v: Variant)
    ensures v == Default <==> IsCurrent(row, now)
    ensures v == Outline <==> IsFuture(row, now)
    ensures v == Secondary <==> !IsCurrent(row, now) && !IsFuture(row, now)
  {
    if IsCurrent(row, now) then Default
    else if IsFuture(row, now) then Outline
    else Secondary
  }

  /** A row is never both current and future, so the badge and the label
      agree: the default badge goes with "Atual", the outline one with
      "Futura", and the others with "Expirada" or "Inativa". */
  lemma VariantMatchesLabel(row: ServiceModal.TariffRow, now: int)
    ensures StatusVariant(row, now) == Default <==> StatusLabel(row, now) == Atual
    ensures StatusVariant(row, now) == Outline <==> StatusLabel(row, now) == Futura
    ensures StatusVariant(row, now) == Secondary <==> StatusLabel(row, now) in {Expirada, Inativa}
  {
  }

  /** With a start, a row not current and not future has ended. */
  lemma StartedRowNotCurrentIsExpired(row: ServiceModal.TariffRow, now: int)
    requires row.validFrom.Some? && !IsCurrent(row, now) && !IsFuture(row, now)
    ensures StatusLabel(row, now) == Expirada
    ensures row.validTo.Some? && row.validTo.value < now
  {
  }
}
