/** The value ranges of the averbation calculator
    (averb/utils/valueRanges.ts, averb/utils/valueRangeResolver.ts): each
    "Registro de contrato..." emoluments service stands for a band of
    declared values, read from its name, and a letter, read from its code.
    The three regular expressions are written out as matchers: each is
    searched leftmost-first, as `String.prototype.match` does. */
module AverbRanges {
  import opened Common
  import opened JsText
  import opened PtBrNumber

  // ---------------------------------------------------------------- letter

  /** `/IV\.1\.([a-z])\.E/i` matching at position `i`. */
  predicate LetterCodeAt(s: string, i: nat) {
    i + 8 <= |s| && ToLowerChar(s[i]) == 'i' && ToLowerChar(s[i + 1]) == 'v' && s[i + 2] == '.'
    && s[i + 3] == '1' && s[i + 4] == '.' && IsAsciiLetter(s[i + 5]) && s[i + 6] == '.' && ToLowerChar(s[i + 7]) == 'e'
  }

  function FirstLetterCode(s: string, from: nat): (r: Option<nat>)
    ensures r.Some? ==> from <= r.value && LetterCodeAt(s, r.value)
    ensures r.Some? ==> forall k :: from <= k < r.value ==> !LetterCodeAt(s, k)
    ensures r.None? ==> forall k :: from <= k < |s| ==> !LetterCodeAt(s, k)
    decreases |s| - from
  {
    if from + 8 > |s| then None
    else if LetterCodeAt(s, from) then Some(from)
    else FirstLetterCode(s, from + 1)
  }

  /** extractLetter: the letter of the leftmost `IV.1.<letter>.E` in the
      trimmed code, in whatever case it was written; none without one. */
  function ExtractLetter(code: string): (r: Option<string>)
    ensures r.None? <==> forall k :: 0 <= k < |Trim(code)| ==> !LetterCodeAt(Trim(code), k)
    ensures r.Some? ==> |r.value| == 1 && IsAsciiLetter(r.value[0])
    ensures r.Some? ==> exists k :: 0 <= k < |Trim(code)| && LetterCodeAt(Trim(code), k) && r.value == [Trim(code)[k + 5]]
  {
    var t := Trim(code);
    match FirstLetterCode(t, 0)
    case None => None
    case Some(i) => Some([t[i + 5]])
  }

  // ----------------------------------------------------------------- value

  predicate IsNumberChar(c: char) { IsDigit(c) || c == '.' || c == ',' }

  /** Length of the run of white space starting at `i`. */
  function SpaceRun(s: string, i: nat): (n: nat)
    requires i <= |s|
    ensures i + n <= |s|
    ensures forall k :: i <= k < i + n ==> IsJsSpace(s[k])
    ensures i + n < |s| ==> !IsJsSpace(s[i + n])
    decreases |s| - i
  {
    if i < |s| && IsJsSpace(s[i]) then 1 + SpaceRun(s, i + 1) else 0
  }

  /** Length of the run of `[\d.,]` starting at `i`. */
  function NumberRun(s: string, i: nat): (n: nat)
    requires i <= |s|
    ensures i + n <= |s|
    ensures forall k :: i <= k < i + n ==> IsNumberChar(s[k])
    ensures i + n < |s| ==> !IsNumberChar(s[i + n])
    decreases |s| - i
  {
    if i < |s| && IsNumberChar(s[i]) then 1 + NumberRun(s, i + 1) else 0
  }

  /** `\s+R\$\s+([\d.,]+)` from position `j`, followed by the end of the
      text when `anchored` (`$`); yields the captured group. Each run is
      taken whole: a shorter one could not be followed by what comes next. */
  function Tail(s: string, j: nat, anchored: bool): (r: Option<string>)
    requires j <= |s|
    ensures r.Some? ==> r.value != [] && forall k :: 0 <= k < |r.value| ==> IsNumberChar(r.value[k])
    ensures r.Some? && anchored ==> EndsWith(s, r.value)
  {
    var a := SpaceRun(s, j);
    var k := j + a;
    if a == 0 || !(k + 2 <= |s| && s[k] == 'R' && s[k + 1] == '$') then None
    else
      var b := SpaceRun(s, k + 2);
      var p := k + 2 + b;
      var n := NumberRun(s, p);
      if b == 0 || n == 0 || (anchored && p + n != |s|) then None
      else Some(s[p..p + n])
  }

  predicate StartsAt(s: string, i: nat, w: string) {
    i + |w| <= |s| && s[i..i + |w|] == w
  }

  /** The three patterns of parseValueFromName. */
  datatype Pattern =
    | MinPattern    // /(?:até|de)\s+R\$\s+([\d.,]+)/
    | MaxPattern    // /(?:a|até)\s+R\$\s+([\d.,]+)$/
    | AbovePattern  // /acima de\s+R\$\s+([\d.,]+)/

  /** The group a pattern captures when it matches at position `i`; the
      alternatives are tried in their written order. */
  function MatchAt(p: Pattern, s: string, i: nat): Option<string>
    requires i <= |s|
  {
    match p
    case MinPattern =>
      if StartsAt(s, i, "até") then Tail(s, i + 3, false)
      else if StartsAt(s, i, "de") then Tail(s, i + 2, false)
      else None
    case MaxPattern =>
      var viaA := if StartsAt(s, i, "a") then Tail(s, i + 1, true) else None;
      if viaA.Some? then viaA
      else if StartsAt(s, i, "até") then Tail(s, i + 3, true)
      else None
    case AbovePattern =>
      if StartsAt(s, i, "acima de") then Tail(s, i + 8, false) else None
  }

  /** The leftmost position at or after `from` where the pattern matches. */
  function Search(p: Pattern, s: string, from: nat): (r: Option<nat>)
    requires from <= |s|
    ensures r.Some? ==> from <= r.value <= |s| && MatchAt(p, s, r.value).Some?
    ensures r.Some? ==> forall k :: from <= k < r.value ==> MatchAt(p, s, k).None?
    ensures r.None? ==> forall k :: from <= k <= |s| ==> MatchAt(p, s, k).None?
    decreases |s| - from
  {
    if MatchAt(p, s, from).Some? then Some(from)
    else if from == |s| then None
    else Search(p, s, from + 1)
  }

  /** `s.match(pattern)?.[1]` */
  function Capture(p: Pattern, s: string): (r: Option<string>)
    ensures r.Some? <==> exists k :: 0 <= k <= |s| && MatchAt(p, s, k).Some?
    ensures r.Some? ==> exists k :: 0 <= k <= |s| && MatchAt(p, s, k) == r
                           && forall k' :: 0 <= k' < k ==> MatchAt(p, s, k').None?
  {
    match Search(p, s, 0)
    case None => None
    case Some(k) => MatchAt(p, s, k)
  }

  /** parseValueFromName: the lower bound from the first pattern; the upper
      bound from the anchored one, else from "acima de". A text read as no
      number is NaN; no match at all is `null` (`None`). */
  function ParseValueFromName(name: string, isMin: bool): (r: Option<Number>)
    ensures isMin ==> (r.None? <==> Capture(MinPattern, name).None?)
    ensures isMin && r.Some? ==> r.value == ParseFloat(Normalized(Capture(MinPattern, name).value))
    ensures !isMin && Capture(MaxPattern, name).Some? ==> r == Some(ParseFloat(Normalized(Capture(MaxPattern, name).value)))
    ensures !isMin && Capture(MaxPattern, name).None? ==>
      (r.None? <==> Capture(AbovePattern, name).None?)
      && (r.Some? ==> r.value == ParseFloat(Normalized(Capture(AbovePattern, name).value)))
  {
    var m := if isMin then Capture(MinPattern, name)
             else if Capture(MaxPattern, name).Some? then Capture(MaxPattern, name)
             else Capture(AbovePattern, name);
    match m
    case None => None
    case Some(text) => Some(ParseFloat(Normalized(text)))
  }

  // ---------------------------------------------------------------- ranges

  /** A band of declared values: `max` absent (`null`) means no upper bound. */
  datatype ValueRange = ValueRange(min: Number, max: Option<Number>, letter: string)

  /** A stored service's name and code, as the ranges query selects them. */
  datatype ServiceRow = ServiceRow(name: string, code: string)

  const ContractRegistration := "Registro de contrato, título ou documento com conteúdo econômico"

  /** The `where` of the ranges query: both are Prisma `contains`, which is
      case-sensitive, unlike the `/i` letter pattern. */
  predicate InRangesQuery(row: ServiceRow) {
    Contains(row.code, "IV.1.") && Contains(row.name, ContractRegistration)
  }

  /** The ranges query's `findMany`, over the stored services in storage
      order: exactly the rows its `where` admits, order kept. */
  function QueryRangeRows(services: seq<ServiceRow>): (r: seq<ServiceRow>)
    ensures |r| <= |services|
    ensures forall x :: x in r <==> x in services && InRangesQuery(x)
    ensures Subsequence(r, services)
  {
    if services == [] then []
    else
      var rest := QueryRangeRows(services[1..]);
      assert forall x :: x in services <==> x == services[0] || x in services[1..];
      if InRangesQuery(services[0]) then
        assert ([services[0]] + rest)[1..] == rest;
        [services[0]] + rest
      else
        assert rest != [] ==> rest[0] in rest && rest[0] != services[0];
        rest
  }

  /** Each admitted row comes back as many times as it is stored. */
  lemma {:induction false} QueryRangeRowsCount(services: seq<ServiceRow>, x: ServiceRow)
    ensures multiset(QueryRangeRows(services))[x] == if InRangesQuery(x) then multiset(services)[x] else 0
  {
    if services != [] {
      QueryRangeRowsCount(services[1..], x);
      var rest := QueryRangeRows(services[1..]);
      assert QueryRangeRows(services) == if InRangesQuery(services[0]) then [services[0]] + rest else rest;
      assert multiset(services) == multiset{services[0]} + multiset(services[1..]) by {
        assert services == [services[0]] + services[1..];
      }
    }
  }

  /** `includes` cannot find a text whose first character never occurs. */
  lemma {:induction false} MissingFirstCharNotContained(s: string, p: string)
    requires p != [] && forall i :: 0 <= i < |s| ==> s[i] != p[0]
    ensures !Contains(s, p)
  {
    if s != [] {
      MissingFirstCharNotContained(s[1..], p);
    }
  }

  /** A lower-case code matches the letter pattern but not the query's
      case-sensitive `contains`, so it never reaches the ranges. */
  lemma LowerCaseCodeNotQueried(name: string)
    ensures LetterCodeAt("iv.1.a.E", 0)
    ensures QueryRangeRows([ServiceRow(name, "iv.1.a.E")]) == []
  {
    MissingFirstCharNotContained("iv.1.a.E", "IV.1.");
    assert QueryRangeRows([ServiceRow(name, "iv.1.a.E")])
      == [] + QueryRangeRows([ServiceRow(name, "iv.1.a.E")][1..]);
  }

  /** buildRange: no letter or no lower bound gives nothing; a name with
      "até" and without " a " starts at 0, one with "acima de" has no upper
      bound. */
  function BuildRange(row: ServiceRow): (r: Option<ValueRange>)
    ensures r.None? <==> ExtractLetter(row.code).None? || ParseValueFromName(row.name, true).None?
    ensures r.Some? ==> r.value.letter == ExtractLetter(row.code).value
    ensures r.Some? ==>
      r.value.min == (if Contains(row.name, "até") && !Contains(row.name, " a ") then Finite(0.0)
                      else ParseValueFromName(row.name, true).value)
    ensures r.Some? ==>
      r.value.max == (if Contains(row.name, "acima de") then None else ParseValueFromName(row.name, false))
  {
    var letter := ExtractLetter(row.code);
    var minValue := ParseValueFromName(row.name, true);
    var maxValue := ParseValueFromName(row.name, false);
    if letter.None? || minValue.None? then None
    else
      var isAbove := Contains(row.name, "acima de");
      var isUntil := Contains(row.name, "até") && !Contains(row.name, " a ");
      Some(ValueRange(if isUntil then Finite(0.0) else minValue.value, if isAbove then None else maxValue, letter.value))
  }

  /** isEmolumentsCode */
  predicate IsEmolumentsCode(code: string) {
    EndsWith(Trim(code), ".E")
  }

  /** What one row contributes: a range for an emoluments row that builds
      one, nothing otherwise. */
  function RangeOfRow(row: ServiceRow): Option<ValueRange> {
    if IsEmolumentsCode(row.code) then BuildRange(row) else None
  }

  /** The present values, in order. */
  function Present(opts: seq<Option<ValueRange>>): (r: seq<ValueRange>)
    ensures forall x :: x in r <==> Some(x) in opts
  {
    if opts == [] then []
    else
      var rest := Present(opts[1..]);
      assert forall o :: o in opts <==> o == opts[0] || o in opts[1..];
      if opts[0].Some? then [opts[0].value] + rest else rest
  }

  /** The present values keep their order: wrapped back, they are `opts`
      with the absent entries dropped. */
  lemma {:induction false} PresentKeepsOrder(opts: seq<Option<ValueRange>>)
    ensures Subsequence(Wrapped(Present(opts)), opts)
  {
    if opts != [] {
      var rest := Present(opts[1..]);
      PresentKeepsOrder(opts[1..]);
      if opts[0].Some? {
        assert Present(opts) == [opts[0].value] + rest;
        assert Wrapped([opts[0].value] + rest) == [opts[0]] + Wrapped(rest);
      } else {
        assert Present(opts) == rest;
        assert Wrapped(rest) != [] ==> Wrapped(rest)[0].Some?;
      }
    }
  }

  /** The values of `xs`, each wrapped as present. */
  function Wrapped(xs: seq<ValueRange>): (r: seq<Option<ValueRange>>)
    ensures |r| == |xs| && forall i :: 0 <= i < |xs| ==> r[i] == Some(xs[i])
  {
    if xs == [] then [] else [Some(xs[0])] + Wrapped(xs[1..])
  }

  /** Each value is kept as many times as it is present. */
  lemma {:induction false} PresentCount(opts: seq<Option<ValueRange>>, x: ValueRange)
    ensures multiset(Present(opts))[x] == multiset(opts)[Some(x)]
  {
    if opts != [] {
      PresentCount(opts[1..], x);
      var rest := Present(opts[1..]);
      assert Present(opts) == if opts[0].Some? then [opts[0].value] + rest else rest;
      assert multiset(opts) == multiset{opts[0]} + multiset(opts[1..]) by {
        assert opts == [opts[0]] + opts[1..];
      }
    }
  }

  /** The ranges of the emoluments rows, in row order. */
  function RangesOf(rows: seq<ServiceRow>): (r: seq<ValueRange>)
    ensures forall x :: x in r <==> exists k :: 0 <= k < |rows| && RangeOfRow(rows[k]) == Some(x)
  {
    var opts := seq(|rows|, k requires 0 <= k < |rows| => RangeOfRow(rows[k]));
    var r := Present(opts);
    assert forall x :: x in r <==> exists k :: 0 <= k < |rows| && RangeOfRow(rows[k]) == Some(x) by {
      forall x ensures x in r <==> exists k :: 0 <= k < |rows| && RangeOfRow(rows[k]) == Some(x) {
        if x in r {
          var k :| 0 <= k < |opts| && opts[k] == Some(x);
        }
        if exists k :: 0 <= k < |rows| && RangeOfRow(rows[k]) == Some(x) {
          var k :| 0 <= k < |rows| && RangeOfRow(rows[k]) == Some(x);
          assert opts[k] == Some(x);
        }
      }
    }
    r
  }

  /** The comparator `(a, b) => a.min - b.min` read as "not after": a NaN
      bound makes the comparison undecided, which counts as equal. */
  predicate MinLe(a: ValueRange, b: ValueRange) {
    !(a.min.Finite? && b.min.Finite?) || a.min.value <= b.min.value
  }

  predicate SortedByMin(rs: seq<ValueRange>) {
    forall i :: 0 <= i < |rs| - 1 ==> MinLe(rs[i], rs[i + 1])
  }

  function InsertByMin(x: ValueRange, ys: seq<ValueRange>): (r: seq<ValueRange>)
    ensures multiset(r) == multiset(ys) + multiset{x}
    ensures SortedByMin(ys) ==> SortedByMin(r)
    ensures r != [] && (r[0] == x || (ys != [] && r[0] == ys[0]))
  {
    if ys == [] || MinLe(x, ys[0]) then
      ConsKeepsSorted(x, ys);
      [x] + ys
    else
      assert ys == [ys[0]] + ys[1..];
      var tail := InsertByMin(x, ys[1..]);
      SortedTail(ys);
      ConsKeepsSorted(ys[0], tail);
      [ys[0]] + tail
  }

  lemma SortedTail(ys: seq<ValueRange>)
    ensures SortedByMin(ys) && ys != [] ==> SortedByMin(ys[1..]) && (|ys| > 1 ==> MinLe(ys[0], ys[1]))
  {
    if SortedByMin(ys) && ys != [] {
      forall i | 0 <= i < |ys[1..]| - 1 ensures MinLe(ys[1..][i], ys[1..][i + 1]) {
        assert ys[1..][i] == ys[i + 1] && ys[1..][i + 1] == ys[i + 2];
      }
    }
  }

  /** A head not after the first element keeps a sorted list sorted. */
  lemma ConsKeepsSorted(h: ValueRange, tail: seq<ValueRange>)
    ensures SortedByMin(tail) && (tail == [] || MinLe(h, tail[0])) ==> SortedByMin([h] + tail)
  {
    var r := [h] + tail;
    if SortedByMin(tail) && (tail == [] || MinLe(h, tail[0])) {
      forall i | 0 <= i < |r| - 1 ensures MinLe(r[i], r[i + 1]) {
        if i > 0 { assert r[i] == tail[i - 1] && r[i + 1] == tail[i]; }
      }
    }
  }

  /** `.sort((a, b) => a.min - b.min)`, stable. */
  function SortByMin(rs: seq<ValueRange>): (r: seq<ValueRange>)
    ensures multiset(r) == multiset(rs)
    ensures SortedByMin(r)
  {
    if rs == [] then []
    else
      assert rs == [rs[0]] + rs[1..];
      InsertByMin(rs[0], SortByMin(rs[1..]))
  }

  /** fetchValueRanges, over the stored services: the query, the
      emoluments filter, buildRange and the sort by lower bound. */
  function FetchValueRanges(services: seq<ServiceRow>): (r: seq<ValueRange>)
    ensures multiset(r) == multiset(RangesOf(QueryRangeRows(services)))
    ensures SortedByMin(r)
    ensures forall x :: x in r <==>
      exists k :: 0 <= k < |services| && InRangesQuery(services[k]) && RangeOfRow(services[k]) == Some(x)
  {
    var rows := QueryRangeRows(services);
    var r := SortByMin(RangesOf(rows));
    forall x ensures x in r <==>
      exists k :: 0 <= k < |services| && InRangesQuery(services[k]) && RangeOfRow(services[k]) == Some(x)
    {
      assert x in r <==> x in multiset(r);
      assert x in RangesOf(rows) <==> x in multiset(RangesOf(rows));
      QueriedRange(services, x);
    }
    r
  }

  /** A range comes out of the query's rows exactly when some admitted
      stored service builds it. */
  lemma QueriedRange(services: seq<ServiceRow>, x: ValueRange)
    ensures x in RangesOf(QueryRangeRows(services)) <==>
      exists k :: 0 <= k < |services| && InRangesQuery(services[k]) && RangeOfRow(services[k]) == Some(x)
  {
    var rows := QueryRangeRows(services);
    if x in RangesOf(rows) {
      var k :| 0 <= k < |rows| && RangeOfRow(rows[k]) == Some(x);
      QueriedRowIsStored(services, rows[k]);
    }
    if exists k :: 0 <= k < |services| && InRangesQuery(services[k]) && RangeOfRow(services[k]) == Some(x) {
      var k :| 0 <= k < |services| && InRangesQuery(services[k]) && RangeOfRow(services[k]) == Some(x);
      StoredRowIsQueried(services, k);
    }
  }

  lemma QueriedRowIsStored(services: seq<ServiceRow>, row: ServiceRow)
    requires row in QueryRangeRows(services)
    ensures exists j :: 0 <= j < |services| && services[j] == row && InRangesQuery(row)
  {
    assert row in services;
  }

  lemma StoredRowIsQueried(services: seq<ServiceRow>, k: nat)
    requires k < |services| && InRangesQuery(services[k])
    ensures exists j :: 0 <= j < |QueryRangeRows(services)| && QueryRangeRows(services)[j] == services[k]
  {
    assert services[k] in services;
    assert services[k] in QueryRangeRows(services);
  }

  predicate AllFinite(rs: seq<ValueRange>) {
    forall i :: 0 <= i < |rs| ==> rs[i].min.Finite?
  }

  /** With numeric bounds, neighbours in order means every pair in order. */
  lemma {:induction false} SortedPairwise(rs: seq<ValueRange>)
    requires SortedByMin(rs) && AllFinite(rs)
    ensures forall i, j :: 0 <= i < j < |rs| ==> rs[i].min.value <= rs[j].min.value
  {
    if |rs| > 1 {
      SortedPairwise(rs[1..]);
      forall i, j | 0 <= i < j < |rs| ensures rs[i].min.value <= rs[j].min.value {
        if i > 0 {
          assert rs[i] == rs[1..][i - 1] && rs[j] == rs[1..][j - 1];
        } else if j > 1 {
          assert rs[1] == rs[1..][0] && rs[j] == rs[1..][j - 1];
          assert MinLe(rs[0], rs[1]);
        } else {
          assert MinLe(rs[0], rs[1]);
        }
      }
    }
  }

  // ------------------------------------------------------------ resolution

  /** isValueInRange: the closed band `[min, max]`; a NaN bound never holds. */
  predicate InRange(v: real, r: ValueRange) {
    r.min.Finite? && v >= r.min.value && (r.max.None? || (r.max.value.Finite? && v <= r.max.value.value))
  }

  function FindRange(ranges: seq<ValueRange>, v: real): (r: Option<nat>)
    ensures r.Some? ==> r.value < |ranges| && InRange(v, ranges[r.value])
    ensures r.Some? ==> forall k :: 0 <= k < r.value ==> !InRange(v, ranges[k])
    ensures r.None? <==> forall k :: 0 <= k < |ranges| ==> !InRange(v, ranges[k])
  {
    if ranges == [] then None
    else if InRange(v, ranges[0]) then Some(0)
    else match FindRange(ranges[1..], v)
      case None => None
      case Some(k) => Some(k + 1)
  }

  /** findLetterByValue: the letter of the first band holding `v`. */
  function FindLetterByValue(ranges: seq<ValueRange>, v: real): (r: Option<string>)
    ensures r.None? <==> forall k :: 0 <= k < |ranges| ==> !InRange(v, ranges[k])
    ensures r.Some? ==> exists k :: 0 <= k < |ranges| && InRange(v, ranges[k]) && ranges[k].letter == r.value
  {
    match FindRange(ranges, v)
    case None => None
    case Some(k) => Some(ranges[k].letter)
  }

  /** Over the fetched ranges with numeric bounds, the chosen band has the
      smallest lower bound of all bands holding `v`. */
  lemma ChosenRangeHasSmallestMin(rows: seq<ServiceRow>, v: real)
    requires AllFinite(FetchValueRanges(rows))
    requires FindRange(FetchValueRanges(rows), v).Some?
    ensures var rs := FetchValueRanges(rows);
      forall j :: 0 <= j < |rs| && InRange(v, rs[j]) ==>
        rs[FindRange(rs, v).value].min.value <= rs[j].min.value
  {
    SmallestMinChosen(FetchValueRanges(rows), v);
  }

  lemma SmallestMinChosen(rs: seq<ValueRange>, v: real)
    requires SortedByMin(rs) && AllFinite(rs)
    requires FindRange(rs, v).Some?
    ensures forall j :: 0 <= j < |rs| && InRange(v, rs[j]) ==> rs[FindRange(rs, v).value].min.value <= rs[j].min.value
  {
    SortedPairwise(rs);
    var k := FindRange(rs, v).value;
    forall j | 0 <= j < |rs| && InRange(v, rs[j]) ensures rs[k].min.value <= rs[j].min.value {
      assert k <= j;
    }
  }
}
