/** Brazilian document and input validators (lib/validators.ts): CPF and CNPJ
    check digits, PIX keys, transaction ids, seller ids, UF codes and postal
    codes. Characters that `parseInt` cannot read make the JavaScript sums NaN;
    here NaN is `None`, and it compares unequal to everything, itself included. */
module Documents {
  import opened Common
  import opened JsText

  /** `parseInt(s[i])`: a one-character string (or `undefined` past the end)
      is a number only when it is an ASCII digit. */
  function DigitAt(s: string, i: int): (r: Option<int>)
    ensures r.Some? <==> (0 <= i < |s| && IsDigit(s[i]))
    ensures r.Some? ==> 0 <= r.value <= 9
  {
    if 0 <= i < |s| && IsDigit(s[i]) then Some(DigitValue(s[i])) else None
  }

  /** JavaScript `===` on numbers: NaN equals nothing. */
  predicate JsStrictEq(a: Option<int>, b: Option<int>) {
    a.Some? && b.Some? && a.value == b.value
  }

  /** `sum += d * w`, where a NaN operand makes the sum NaN. */
  function AddProduct(sum: Option<int>, d: Option<int>, w: int): Option<int> {
    if sum.Some? && d.Some? then Some(sum.value + d.value * w) else None
  }

  /** The sum over the first n characters of digit(s[k]) * (top - k). */
  function WeightedSum(s: string, n: nat, top: int): Option<int> {
    if n == 0 then Some(0)
    else AddProduct(WeightedSum(s, n - 1, top), DigitAt(s, n - 1), top - (n - 1))
  }

  /** A weighted sum is a number exactly when the characters it reads are digits. */
  lemma {:induction false} WeightedSumDefined(s: string, n: nat, top: int)
    ensures WeightedSum(s, n, top).Some? <==> (n <= |s| && AllDigits(s[..n]))
  {
    if n > 0 {
      WeightedSumDefined(s, n - 1, top);
      if n <= |s| {
        assert s[..n] == s[..n - 1] + [s[n - 1]];
        assert AllDigits(s[..n]) ==> AllDigits(s[..n - 1]) by {
          if AllDigits(s[..n]) {
            var p, q := s[..n - 1], s[..n];
            forall k | 0 <= k < |p| ensures IsDigit(p[k]) {
              assert p[k] == q[k];
            }
          }
        }
      }
    }
  }

  /** Weighted sums only look at the characters they read. */
  lemma {:induction false} WeightedSumPrefix(s: string, t: string, n: nat, top: int)
    requires n <= |s| && n <= |t| && s[..n] == t[..n]
    ensures WeightedSum(s, n, top) == WeightedSum(t, n, top)
  {
    if n > 0 {
      assert s[..n - 1] == s[..n][..n - 1] && t[..n - 1] == t[..n][..n - 1];
      assert s[n - 1] == s[..n][n - 1] && t[n - 1] == t[..n][n - 1];
      WeightedSumPrefix(s, t, n - 1, top);
    }
  }

  /** `/^(\d)\1+$/`: at least two characters, all the same digit. */
  predicate RepeatedDigit(s: string) {
    |s| >= 2 && IsDigit(s[0]) && forall i :: 0 <= i < |s| ==> s[i] == s[0]
  }

  /** The CPF check digit for a sum: `(sum * 10) % 11`, with 10 (and the
      unreachable 11) read as 0. Weighted digit sums are never negative,
      and there it is a digit. */
  function CpfCheck(sum: int): (r: int)
    ensures sum >= 0 ==> 0 <= r <= 9
    ensures sum < 0 ==> -10 <= r <= 0
  {
    var remainder := JsRem(sum * 10, 11);
    if remainder == 10 || remainder == 11 then 0 else remainder
  }

  /** One CPF round: the n leading digits weighted n+1 down to 2 determine
      the digit at index n. */
  predicate CpfRoundOk(s: string, n: nat) {
    var sum := WeightedSum(s, n, n + 1);
    sum.Some? && JsStrictEq(Some(CpfCheck(sum.value)), DigitAt(s, n))
  }

  /** validateCpf: not one repeated digit; digits 10 and 11 agree with the
      mod-11 checks over the first 9 (weights 10..2) and the first 10 (11..2). */
  predicate IsValidCpf(s: string) {
    !RepeatedDigit(s) && CpfRoundOk(s, 9) && CpfRoundOk(s, 10)
  }

  /** The loop of lib/validators.ts:8-21, with NaN propagated explicitly. */
  method ValidateCpf(cpf: string) returns (ok: bool)
    ensures ok == IsValidCpf(cpf)
  {
    if RepeatedDigit(cpf) { return false; }
    var sum: Option<int> := Some(0);
    var i := 1;
    while i <= 9
      invariant 1 <= i <= 10
      invariant sum == WeightedSum(cpf, i - 1, 10)
    {
      sum := AddProduct(sum, DigitAt(cpf, i - 1), 11 - i);
      i := i + 1;
    }
    var remainder: Option<int> := if sum.Some? then Some(CpfCheck(sum.value)) else None;
    if !JsStrictEq(remainder, DigitAt(cpf, 9)) { return false; }
    sum := Some(0);
    i := 1;
    while i <= 10
      invariant 1 <= i <= 11
      invariant sum == WeightedSum(cpf, i - 1, 11)
    {
      sum := AddProduct(sum, DigitAt(cpf, i - 1), 12 - i);
      i := i + 1;
    }
    remainder := if sum.Some? then Some(CpfCheck(sum.value)) else None;
    ok := JsStrictEq(remainder, DigitAt(cpf, 10));
  }

  /** A valid CPF starts with eleven digits; characters after them are ignored
      apart from the repeated-digit test. */
  lemma CpfValidShape(s: string)
    requires IsValidCpf(s)
    ensures |s| >= 11 && AllDigits(s[..11]) && !RepeatedDigit(s)
  {
    WeightedSumDefined(s, 10, 11);
    assert IsDigit(s[10]);
    assert s[..11] == s[..10] + [s[10]];
  }

  /** The nine leading digits of a valid CPF determine its two check digits. */
  lemma CpfCheckDigitsDetermined(s: string, t: string)
    requires IsValidCpf(s) && IsValidCpf(t)
    requires s[..9] == t[..9]
    ensures s[..11] == t[..11]
  {
    CpfValidShape(s);
    CpfValidShape(t);
    WeightedSumPrefix(s, t, 9, 10);
    assert s[9] == t[9] by {
      assert DigitValue(s[9]) == DigitValue(t[9]);
    }
    assert s[..10] == t[..10] by {
      assert s[..10] == s[..9] + [s[9]];
      assert t[..10] == t[..9] + [t[9]];
    }
    WeightedSumPrefix(s, t, 10, 11);
    assert DigitValue(s[10]) == DigitValue(t[10]);
    assert s[..11] == s[..10] + [s[10]];
    assert t[..11] == t[..10] + [t[10]];
  }

  lemma CpfRejectsRepeatedDigit(s: string)
    requires RepeatedDigit(s)
    ensures !IsValidCpf(s)
  {
  }

  /** One more digit adds its product with its weight. */
  lemma SumStep(s: string, n: nat, top: int, prev: int, d: int)
    requires WeightedSum(s, n, top) == Some(prev) && DigitAt(s, n) == Some(d)
    ensures WeightedSum(s, n + 1, top) == Some(prev + d * (top - n))
  {
  }

  lemma CpfExampleRoundOneUpto4(s: string)
    requires s == "52998224725"
    ensures WeightedSum(s, 4, 10) == Some(203)
  {
    assert DigitAt(s, 0) == Some(5);
    SumStep(s, 0, 10, 0, 5);
    assert DigitAt(s, 1) == Some(2);
    SumStep(s, 1, 10, 50, 2);
    assert DigitAt(s, 2) == Some(9);
    SumStep(s, 2, 10, 68, 9);
    assert DigitAt(s, 3) == Some(9);
    SumStep(s, 3, 10, 140, 9);
  }

  lemma CpfExampleRoundOneUpto8(s: string)
    requires s == "52998224725"
    ensures WeightedSum(s, 8, 10) == Some(281)
  {
    CpfExampleRoundOneUpto4(s);
    assert DigitAt(s, 4) == Some(8);
    SumStep(s, 4, 10, 203, 8);
    assert DigitAt(s, 5) == Some(2);
    SumStep(s, 5, 10, 251, 2);
    assert DigitAt(s, 6) == Some(2);
    SumStep(s, 6, 10, 261, 2);
    assert DigitAt(s, 7) == Some(4);
    SumStep(s, 7, 10, 269, 4);
  }

  lemma CpfExampleRoundOne(s: string)
    requires s == "52998224725"
    ensures WeightedSum(s, 9, 10) == Some(295)
  {
    CpfExampleRoundOneUpto8(s);
    assert DigitAt(s, 8) == Some(7);
    SumStep(s, 8, 10, 281, 7);
  }

  lemma CpfExampleRoundTwoUpto4(s: string)
    requires s == "52998224725"
    ensures WeightedSum(s, 4, 11) == Some(228)
  {
    assert DigitAt(s, 0) == Some(5);
    SumStep(s, 0, 11, 0, 5);
    assert DigitAt(s, 1) == Some(2);
    SumStep(s, 1, 11, 55, 2);
    assert DigitAt(s, 2) == Some(9);
    SumStep(s, 2, 11, 75, 9);
    assert DigitAt(s, 3) == Some(9);
    SumStep(s, 3, 11, 156, 9);
  }

  lemma CpfExampleRoundTwoUpto8(s: string)
    requires s == "52998224725"
    ensures WeightedSum(s, 8, 11) == Some(322)
  {
    CpfExampleRoundTwoUpto4(s);
    assert DigitAt(s, 4) == Some(8);
    SumStep(s, 4, 11, 228, 8);
    assert DigitAt(s, 5) == Some(2);
    SumStep(s, 5, 11, 284, 2);
    assert DigitAt(s, 6) == Some(2);
    SumStep(s, 6, 11, 296, 2);
    assert DigitAt(s, 7) == Some(4);
    SumStep(s, 7, 11, 306, 4);
  }

  lemma CpfExampleRoundTwo(s: string)
    requires s == "52998224725"
    ensures WeightedSum(s, 10, 11) == Some(347)
  {
    CpfExampleRoundTwoUpto8(s);
    assert DigitAt(s, 8) == Some(7);
    SumStep(s, 8, 11, 322, 7);
    assert DigitAt(s, 9) == Some(2);
    SumStep(s, 9, 11, 343, 2);
  }

  /** 529.982.247-25, a well-formed CPF, is accepted. */
  lemma CpfAcceptsExample()
    ensures IsValidCpf("52998224725")
  {
    CpfExampleAccepted("52998224725");
  }

  lemma CpfExampleAccepted(s: string)
    requires s == "52998224725"
    ensures IsValidCpf(s)
  {
    assert !RepeatedDigit(s) by { assert s[1] != s[0]; }
    CpfExampleRoundOne(s);
    CpfExampleRoundTwo(s);
    assert CpfCheck(295) == 2 && DigitAt(s, 9) == Some(2);
    assert CpfCheck(347) == 5 && DigitAt(s, 10) == Some(5);
  }

  /** The CNPJ check digit as written: `sum % 11 < 2 ? 0 : 11 - sum % 11` with
      JavaScript's truncating `%`, so every negative sum yields 0. */
  function CnpjCheck(sum: int): (r: int)
    ensures 0 <= r <= 9
    ensures sum < 0 ==> r == 0
    ensures sum >= 0 ==> (r == 0 <==> sum % 11 < 2)
  {
    var m := JsRem(sum, 11);
    if m < 2 then 0 else 11 - m
  }

  /** One CNPJ round over the n leading digits. The weight starts at n - 7 and
      drops by one per digit; the reset to 9 happens only after the loop, so
      the weights reach zero and go negative. */
  predicate CnpjRoundOk(s: string, n: nat) {
    var sum := WeightedSum(s, n, n - 7);
    sum.Some? && JsStrictEq(Some(CnpjCheck(sum.value)), DigitAt(s, n))
  }

  /** validateCnpj as written in lib/validators.ts:23-42. */
  predicate IsValidCnpj(s: string) {
    !RepeatedDigit(s) && |s| >= 2 && CnpjRoundOk(s, |s| - 2) && CnpjRoundOk(s, |s| - 1)
  }

  /** `sum % 11 < 2 ? 0 : 11 - sum % 11`, where a NaN sum gives NaN. */
  function CnpjResult(sum: Option<int>): Option<int> {
    if sum.Some? then Some(CnpjCheck(sum.value)) else None
  }

  /** The loops of lib/validators.ts:23-42, including the negative `size` and the
      clamped `substring` of strings shorter than two characters. */
  method ValidateCnpj(cnpj: string) returns (ok: bool)
    ensures ok == IsValidCnpj(cnpj)
  {
    if RepeatedDigit(cnpj) { return false; }
    var size := |cnpj| - 2;
    var digitsStart := if size < 0 then 0 else size;
    var sum: Option<int> := Some(0);
    var pos := size - 7;
    var i := size;
    while i >= 1
      invariant i <= size && 0 <= size - i
      invariant i < 0 ==> i == size
      invariant pos == i - 7
      invariant sum == WeightedSum(cnpj, size - i, size - 7)
    {
      sum := AddProduct(sum, DigitAt(cnpj, size - i), pos);
      pos := pos - 1;
      i := i - 1;
    }
    if pos < 2 { pos := 9; }
    var result := CnpjResult(sum);
    if !JsStrictEq(result, DigitAt(cnpj, digitsStart)) { return false; }
    size := size + 1;
    sum := Some(0);
    pos := size - 7;
    i := size;
    while i >= 1
      invariant i <= size && 0 <= size - i
      invariant i < 0 ==> i == size
      invariant pos == i - 7
      invariant sum == WeightedSum(cnpj, size - i, size - 7)
    {
      sum := AddProduct(sum, DigitAt(cnpj, size - i), pos);
      pos := pos - 1;
      i := i - 1;
    }
    if pos < 2 { pos := 9; }
    result := CnpjResult(sum);
    ok := JsStrictEq(result, DigitAt(cnpj, digitsStart + 1));
  }

  /** A CNPJ accepted as written consists of digits up to its last character. */
  lemma CnpjValidShape(s: string)
    requires IsValidCnpj(s)
    ensures AllDigits(s)
  {
    WeightedSumDefined(s, |s| - 1, |s| - 8);
    assert IsDigit(s[|s| - 1]);
    assert s == s[..|s| - 1] + [s[|s| - 1]];
  }

  lemma CnpjStandardExampleRoundOneUpto4(s: string)
    requires s == "11222333000181"
    ensures WeightedSum(s, 4, 5) == Some(19)
  {
    assert DigitAt(s, 0) == Some(1);
    SumStep(s, 0, 5, 0, 1);
    assert DigitAt(s, 1) == Some(1);
    SumStep(s, 1, 5, 5, 1);
    assert DigitAt(s, 2) == Some(2);
    SumStep(s, 2, 5, 9, 2);
    assert DigitAt(s, 3) == Some(2);
    SumStep(s, 3, 5, 15, 2);
  }

  lemma CnpjStandardExampleRoundOneUpto8(s: string)
    requires s == "11222333000181"
    ensures WeightedSum(s, 8, 5) == Some(12)
  {
    CnpjStandardExampleRoundOneUpto4(s);
    assert DigitAt(s, 4) == Some(2);
    SumStep(s, 4, 5, 19, 2);
    assert DigitAt(s, 5) == Some(3);
    SumStep(s, 5, 5, 21, 3);
    assert DigitAt(s, 6) == Some(3);
    SumStep(s, 6, 5, 21, 3);
    assert DigitAt(s, 7) == Some(3);
    SumStep(s, 7, 5, 18, 3);
  }

  lemma CnpjStandardExampleRoundOne(s: string)
    requires s == "11222333000181"
    ensures WeightedSum(s, 12, 5) == Some(6)
  {
    CnpjStandardExampleRoundOneUpto8(s);
    assert DigitAt(s, 8) == Some(0);
    SumStep(s, 8, 5, 12, 0);
    assert DigitAt(s, 9) == Some(0);
    SumStep(s, 9, 5, 12, 0);
    assert DigitAt(s, 10) == Some(0);
    SumStep(s, 10, 5, 12, 0);
    assert DigitAt(s, 11) == Some(1);
    SumStep(s, 11, 5, 12, 1);
  }

  /** 11.222.333/0001-81 is a registered-style CNPJ under the standard weights
      5,4,3,2,9..2; as written, round one sums to 6 and demands check digit 5
      where the number carries 8, so it is rejected. */
  lemma CnpjRejectsStandardExample()
    ensures !IsValidCnpj("11222333000181")
  {
    CnpjStandardExampleRejected("11222333000181");
  }

  lemma CnpjStandardExampleRejected(s: string)
    requires s == "11222333000181"
    ensures !IsValidCnpj(s)
  {
    CnpjStandardExampleRoundOne(s);
    assert CnpjCheck(6) == 5;
    assert DigitAt(s, 12) == Some(8);
  }

  lemma CnpjNegativeExampleRoundOneUpto4(s: string)
    requires s == "49711623624490"
    ensures WeightedSum(s, 4, 5) == Some(79)
  {
    assert DigitAt(s, 0) == Some(4);
    SumStep(s, 0, 5, 0, 4);
    assert DigitAt(s, 1) == Some(9);
    SumStep(s, 1, 5, 20, 9);
    assert DigitAt(s, 2) == Some(7);
    SumStep(s, 2, 5, 56, 7);
    assert DigitAt(s, 3) == Some(1);
    SumStep(s, 3, 5, 77, 1);
  }

  lemma CnpjNegativeExampleRoundOneUpto8(s: string)
    requires s == "49711623624490"
    ensures WeightedSum(s, 8, 5) == Some(72)
  {
    CnpjNegativeExampleRoundOneUpto4(s);
    assert DigitAt(s, 4) == Some(1);
    SumStep(s, 4, 5, 79, 1);
    assert DigitAt(s, 5) == Some(6);
    SumStep(s, 5, 5, 80, 6);
    assert DigitAt(s, 6) == Some(2);
    SumStep(s, 6, 5, 80, 2);
    assert DigitAt(s, 7) == Some(3);
    SumStep(s, 7, 5, 78, 3);
  }

  lemma CnpjNegativeExampleRoundOne(s: string)
    requires s == "49711623624490"
    ensures WeightedSum(s, 12, 5) == Some(2)
  {
    CnpjNegativeExampleRoundOneUpto8(s);
    assert DigitAt(s, 8) == Some(6);
    SumStep(s, 8, 5, 72, 6);
    assert DigitAt(s, 9) == Some(2);
    SumStep(s, 9, 5, 54, 2);
    assert DigitAt(s, 10) == Some(4);
    SumStep(s, 10, 5, 46, 4);
    assert DigitAt(s, 11) == Some(4);
    SumStep(s, 11, 5, 26, 4);
  }

  lemma CnpjNegativeExampleRoundTwoUpto4(s: string)
    requires s == "49711623624490"
    ensures WeightedSum(s, 4, 6) == Some(100)
  {
    assert DigitAt(s, 0) == Some(4);
    SumStep(s, 0, 6, 0, 4);
    assert DigitAt(s, 1) == Some(9);
    SumStep(s, 1, 6, 24, 9);
    assert DigitAt(s, 2) == Some(7);
    SumStep(s, 2, 6, 69, 7);
    assert DigitAt(s, 3) == Some(1);
    SumStep(s, 3, 6, 97, 1);
  }

  lemma CnpjNegativeExampleRoundTwoUpto8(s: string)
    requires s == "49711623624490"
    ensures WeightedSum(s, 8, 6) == Some(105)
  {
    CnpjNegativeExampleRoundTwoUpto4(s);
    assert DigitAt(s, 4) == Some(1);
    SumStep(s, 4, 6, 100, 1);
    assert DigitAt(s, 5) == Some(6);
    SumStep(s, 5, 6, 102, 6);
    assert DigitAt(s, 6) == Some(2);
    SumStep(s, 6, 6, 108, 2);
    assert DigitAt(s, 7) == Some(3);
    SumStep(s, 7, 6, 108, 3);
  }

  lemma CnpjNegativeExampleRoundTwoUpto12(s: string)
    requires s == "49711623624490"
    ensures WeightedSum(s, 12, 6) == Some(51)
  {
    CnpjNegativeExampleRoundTwoUpto8(s);
    assert DigitAt(s, 8) == Some(6);
    SumStep(s, 8, 6, 105, 6);
    assert DigitAt(s, 9) == Some(2);
    SumStep(s, 9, 6, 93, 2);
    assert DigitAt(s, 10) == Some(4);
    SumStep(s, 10, 6, 87, 4);
    assert DigitAt(s, 11) == Some(4);
    SumStep(s, 11, 6, 71, 4);
  }

  lemma CnpjNegativeExampleRoundTwo(s: string)
    requires s == "49711623624490"
    ensures WeightedSum(s, 13, 6) == Some(-3)
  {
    CnpjNegativeExampleRoundTwoUpto12(s);
    assert DigitAt(s, 12) == Some(9);
    SumStep(s, 12, 6, 51, 9);
  }

  /** A CNPJ is accepted as written once both round sums and check digits are known. */
  lemma CnpjFromSums(s: string, sum1: int, sum2: int)
    requires |s| >= 2 && !RepeatedDigit(s)
    requires WeightedSum(s, |s| - 2, |s| - 9) == Some(sum1)
    requires DigitAt(s, |s| - 2) == Some(CnpjCheck(sum1))
    requires WeightedSum(s, |s| - 1, |s| - 8) == Some(sum2)
    requires DigitAt(s, |s| - 1) == Some(CnpjCheck(sum2))
    ensures IsValidCnpj(s)
  {
  }

  lemma CnpjNegativeExampleNotRepeated(s: string)
    requires s == "49711623624490"
    ensures !RepeatedDigit(s)
  {
    assert s[1] != s[0];
  }

  /** 49.711.623/6244-90 is accepted as written: round two sums to -3, whose
      truncated remainder -3 is below 2 and gives check digit 0, where a
      Euclidean remainder (8) would demand 3. */
  lemma CnpjAcceptsNegativeSumExample()
    ensures IsValidCnpj("49711623624490")
  {
    CnpjNegativeSumAccepted("49711623624490");
  }

  lemma CnpjNegativeSumAccepted(s: string)
    requires s == "49711623624490"
    ensures IsValidCnpj(s)
  {
    CnpjNegativeExampleNotRepeated(s);
    CnpjNegativeExampleRoundOne(s);
    CnpjNegativeExampleRoundTwo(s);
    assert DigitAt(s, 12) == Some(9);
    assert DigitAt(s, 13) == Some(0);
    assert CnpjCheck(2) == 9 && CnpjCheck(-3) == 0;
    CnpjFromSums(s, 2, -3);
  }

  /** The weights the CNPJ registry prescribes, which the loop evidently
      intends: `pos` starts at n - 7 and is reset to 9 as soon as it falls
      below 2, inside the loop. For the 12 and 13 digits of the two rounds
      this gives 5,4,3,2,9..2 and 6,5,4,3,2,9..2. */
  function RegistryWeight(n: nat, k: nat): int {
    var w := n - 7 - k;
    if w >= 2 then w else w + 8
  }

  /** Both rounds' weights under the reset inside the loop. */
  lemma RegistryWeightsAreStandard()
    ensures seq(12, (k: nat) requires k < 12 => RegistryWeight(12, k)) == [5, 4, 3, 2, 9, 8, 7, 6, 5, 4, 3, 2]
    ensures seq(13, (k: nat) requires k < 13 => RegistryWeight(13, k)) == [6, 5, 4, 3, 2, 9, 8, 7, 6, 5, 4, 3, 2]
    ensures forall k :: 0 <= k < 13 ==> 2 <= RegistryWeight(13, k) <= 9
  {
  }

  /** The sum over the first m characters of digit(s[k]) * RegistryWeight(n, k). */
  function RegistrySum(s: string, n: nat, m: nat): Option<int> {
    if m == 0 then Some(0)
    else AddProduct(RegistrySum(s, n, m - 1), DigitAt(s, m - 1), RegistryWeight(n, m - 1))
  }

  lemma RegistryStep(s: string, n: nat, m: nat, prev: int, d: int)
    requires RegistrySum(s, n, m) == Some(prev) && DigitAt(s, m) == Some(d)
    ensures RegistrySum(s, n, m + 1) == Some(prev + d * RegistryWeight(n, m))
  {
  }

  predicate CnpjRegistryRoundOk(s: string, n: nat) {
    var sum := RegistrySum(s, n, n);
    sum.Some? && JsStrictEq(Some(CnpjCheck(sum.value)), DigitAt(s, n))
  }

  /** validateCnpj as evidently intended: the as-written checks with the
      registry's weights. */
  predicate IsValidCnpjRegistry(s: string) {
    !RepeatedDigit(s) && |s| >= 2 && CnpjRegistryRoundOk(s, |s| - 2) && CnpjRegistryRoundOk(s, |s| - 1)
  }

  lemma CnpjRegistryExampleRoundOneUpto4(s: string)
    requires s == "11222333000181"
    ensures RegistrySum(s, 12, 4) == Some(19)
  {
    assert DigitAt(s, 0) == Some(1);
    RegistryStep(s, 12, 0, 0, 1);
    assert DigitAt(s, 1) == Some(1);
    RegistryStep(s, 12, 1, 5, 1);
    assert DigitAt(s, 2) == Some(2);
    RegistryStep(s, 12, 2, 9, 2);
    assert DigitAt(s, 3) == Some(2);
    RegistryStep(s, 12, 3, 15, 2);
  }

  lemma CnpjRegistryExampleRoundOneUpto8(s: string)
    requires s == "11222333000181"
    ensures RegistrySum(s, 12, 8) == Some(100)
  {
    CnpjRegistryExampleRoundOneUpto4(s);
    assert DigitAt(s, 4) == Some(2);
    RegistryStep(s, 12, 4, 19, 2);
    assert DigitAt(s, 5) == Some(3);
    RegistryStep(s, 12, 5, 37, 3);
    assert DigitAt(s, 6) == Some(3);
    RegistryStep(s, 12, 6, 61, 3);
    assert DigitAt(s, 7) == Some(3);
    RegistryStep(s, 12, 7, 82, 3);
  }

  lemma CnpjRegistryExampleRoundOneUpto12(s: string)
    requires s == "11222333000181"
    ensures RegistrySum(s, 12, 12) == Some(102)
  {
    CnpjRegistryExampleRoundOneUpto8(s);
    assert DigitAt(s, 8) == Some(0);
    RegistryStep(s, 12, 8, 100, 0);
    assert DigitAt(s, 9) == Some(0);
    RegistryStep(s, 12, 9, 100, 0);
    assert DigitAt(s, 10) == Some(0);
    RegistryStep(s, 12, 10, 100, 0);
    assert DigitAt(s, 11) == Some(1);
    RegistryStep(s, 12, 11, 100, 1);
  }

  lemma CnpjRegistryExampleRoundTwoUpto4(s: string)
    requires s == "11222333000181"
    ensures RegistrySum(s, 13, 4) == Some(25)
  {
    assert DigitAt(s, 0) == Some(1);
    RegistryStep(s, 13, 0, 0, 1);
    assert DigitAt(s, 1) == Some(1);
    RegistryStep(s, 13, 1, 6, 1);
    assert DigitAt(s, 2) == Some(2);
    RegistryStep(s, 13, 2, 11, 2);
    assert DigitAt(s, 3) == Some(2);
    RegistryStep(s, 13, 3, 19, 2);
  }

  lemma CnpjRegistryExampleRoundTwoUpto8(s: string)
    requires s == "11222333000181"
    ensures RegistrySum(s, 13, 8) == Some(101)
  {
    CnpjRegistryExampleRoundTwoUpto4(s);
    assert DigitAt(s, 4) == Some(2);
    RegistryStep(s, 13, 4, 25, 2);
    assert DigitAt(s, 5) == Some(3);
    RegistryStep(s, 13, 5, 29, 3);
    assert DigitAt(s, 6) == Some(3);
    RegistryStep(s, 13, 6, 56, 3);
    assert DigitAt(s, 7) == Some(3);
    RegistryStep(s, 13, 7, 80, 3);
  }

  lemma CnpjRegistryExampleRoundTwoUpto13(s: string)
    requires s == "11222333000181"
    ensures RegistrySum(s, 13, 13) == Some(120)
  {
    CnpjRegistryExampleRoundTwoUpto8(s);
    assert DigitAt(s, 8) == Some(0);
    RegistryStep(s, 13, 8, 101, 0);
    assert DigitAt(s, 9) == Some(0);
    RegistryStep(s, 13, 9, 101, 0);
    assert DigitAt(s, 10) == Some(0);
    RegistryStep(s, 13, 10, 101, 0);
    assert DigitAt(s, 11) == Some(1);
    RegistryStep(s, 13, 11, 101, 1);
    assert DigitAt(s, 12) == Some(8);
    RegistryStep(s, 13, 12, 104, 8);
  }

  /** 11.222.333/0001-81 is accepted under the registry's weights: round one
      sums to 102 and demands 8, round two sums to 120 and demands 1, the two
      digits the number carries. As written it is refused
      (CnpjRejectsStandardExample). */
  lemma CnpjRegistryAcceptsStandardExample()
    ensures IsValidCnpjRegistry("11222333000181")
    ensures !IsValidCnpj("11222333000181")
  {
    CnpjRegistryStandardExampleAccepted("11222333000181");
    CnpjRejectsStandardExample();
  }

  lemma CnpjRegistryStandardExampleAccepted(s: string)
    requires s == "11222333000181"
    ensures IsValidCnpjRegistry(s)
  {
    assert s[2] != s[0];
    CnpjRegistryExampleRoundOneUpto12(s);
    CnpjRegistryExampleRoundTwoUpto13(s);
    assert DigitAt(s, 12) == Some(8) && DigitAt(s, 13) == Some(1);
    assert CnpjCheck(102) == 8 && CnpjCheck(120) == 1;
  }

  /** isValidCpfOrCnpj: strip non-digits, then 11 digits go to the CPF check,
      14 digits to the CNPJ check, and every other length is refused. */
  predicate IsValidCpfOrCnpj(input: string) {
    var clean := DigitsOnly(input);
    if |clean| == 11 then IsValidCpf(clean)
    else if |clean| == 14 then IsValidCnpj(clean)
    else false
  }

  lemma CpfOrCnpjDispatch(input: string)
    ensures IsValidCpfOrCnpj(input) ==> |DigitsOnly(input)| in {11, 14}
    ensures |DigitsOnly(input)| == 11 ==> (IsValidCpfOrCnpj(input) <==> IsValidCpf(DigitsOnly(input)))
    ensures |DigitsOnly(input)| == 14 ==> (IsValidCpfOrCnpj(input) <==> IsValidCnpj(DigitsOnly(input)))
    ensures AllDigits(input) && |input| == 11 ==> (IsValidCpfOrCnpj(input) <==> IsValidCpf(input))
  {
  }

  /** normalizeDocument: the digits of a valid CPF or CNPJ, otherwise null. */
  function NormalizeDocument(doc: string): (r: Option<string>)
    ensures r.Some? <==> IsValidCpfOrCnpj(doc)
    ensures r.Some? ==> r.value == DigitsOnly(doc) && AllDigits(r.value) && |r.value| in {11, 14}
  {
    var clean := DigitsOnly(doc);
    if |clean| != 11 && |clean| != 14 then None
    else if !IsValidCpfOrCnpj(clean) then None
    else Some(clean)
  }

  /** Normalizing a normalized document changes nothing. */
  lemma NormalizeDocumentIdempotent(doc: string)
    requires NormalizeDocument(doc).Some?
    ensures NormalizeDocument(NormalizeDocument(doc).value) == NormalizeDocument(doc)
  {
  }

  predicate IsEmailLocalChar(c: char) { IsAsciiAlnum(c) || c in "._%+-" }
  predicate IsEmailDomainChar(c: char) { IsAsciiAlnum(c) || c == '.' || c == '-' }

  function LastIndexOf(s: string, c: char): (r: Option<nat>)
    ensures r.Some? ==> r.value < |s| && s[r.value] == c && c !in s[r.value + 1..]
    ensures r.None? ==> c !in s
  {
    if s == [] then None
    else if s[|s| - 1] == c then Some(|s| - 1)
    else
      var r := LastIndexOf(s[..|s| - 1], c);
      assert r.Some? ==> s[r.value + 1..] == s[..|s| - 1][r.value + 1..] + [s[|s| - 1]];
      assert r.None? ==> s == s[..|s| - 1] + [s[|s| - 1]];
      r
  }

  /** `/^[a-zA-Z0-9._%+-]+@[a-zA-Z0-9.-]+\.[a-zA-Z]{2,}$/`. Neither side admits
      '@', so the match splits at the only '@'; the letters after the final dot
      take the `{2,}` part, and some domain character must precede that dot. */
  predicate IsEmailLocal(local: string) {
    |local| >= 1 && forall i :: 0 <= i < |local| ==> IsEmailLocalChar(local[i])
  }

  predicate AllLetters(s: string) { forall i :: 0 <= i < |s| ==> IsAsciiLetter(s[i]) }

  /** `[a-zA-Z0-9.-]+\.[a-zA-Z]{2,}`: letters cannot hold a dot, so the `\.` is
      the last dot, and at least one domain character must precede it. */
  predicate IsEmailDomain(domain: string) {
    (forall i :: 0 <= i < |domain| ==> IsEmailDomainChar(domain[i]))
    && match LastIndexOf(domain, '.')
       case None => false
       case Some(dot) => dot >= 1 && |domain| - dot - 1 >= 2 && AllLetters(domain[dot + 1..])
  }

  /** `/^[a-zA-Z0-9._%+-]+@[a-zA-Z0-9.-]+\.[a-zA-Z]{2,}$/`. Neither side admits
      '@', so a match splits the key at its only '@'. */
  predicate IsEmailLike(key: string) {
    match IndexOf(key, '@')
    case None => false
    case Some(at) => IsEmailLocal(key[..at]) && IsEmailDomain(key[at + 1..])
  }

  /** `/^\+55\d{10,11}$/` applied after removing white space. */
  predicate IsBrazilianPhone(key: string) {
    var t := RemoveSpaces(key);
    StartsWith(t, "+55") && 13 <= |t| <= 14 && AllDigits(t[3..])
  }

  /** The case-insensitive UUID pattern 8-4-4-4-12 of hexadecimal digits. */
  predicate IsUuid(key: string) {
    |key| == 36
    && forall i :: 0 <= i < 36 ==>
         if i in {8, 13, 18, 23} then key[i] == '-' else IsHexDigit(key[i])
  }

  /** isValidPixKey tries, in order: CPF (11 digits), CNPJ (14 digits), e-mail,
      +55 phone, UUID. An 11- or 14-digit key is decided by the document check alone. */
  function IsValidPixKey(key: string): (r: bool)
    ensures |DigitsOnly(key)| == 11 ==> (r <==> IsValidCpf(DigitsOnly(key)))
    ensures |DigitsOnly(key)| == 14 ==> (r <==> IsValidCnpj(DigitsOnly(key)))
    ensures |DigitsOnly(key)| !in {11, 14} ==> (r <==> IsEmailLike(key) || IsBrazilianPhone(key) || IsUuid(key))
  {
    var clean := DigitsOnly(key);
    if |clean| == 11 then IsValidCpf(clean)
    else if |clean| == 14 then IsValidCnpj(clean)
    else if IsEmailLike(key) then true
    else if IsBrazilianPhone(key) then true
    else IsUuid(key)
  }

  lemma EmailDomainIntro(host: string, tld: string)
    requires |host| >= 1 && forall i :: 0 <= i < |host| ==> IsEmailDomainChar(host[i])
    requires |tld| >= 2 && AllLetters(tld)
    ensures IsEmailDomain(host + "." + tld)
  {
    var domain := host + "." + tld;
    assert '.' !in tld by {
      forall i | 0 <= i < |tld| ensures tld[i] != '.' { assert IsAsciiLetter(tld[i]); }
    }
    assert (host + ".") + tld == domain;
    LastIndexOfBeforeFree(host + ".", '.', tld);
    assert domain[|host| + 1..] == tld;
    forall i | 0 <= i < |domain| ensures IsEmailDomainChar(domain[i]) {
      if i < |host| { assert domain[i] == host[i]; }
      else if i > |host| { assert domain[i] == tld[i - |host| - 1]; }
    }
  }

  /** Any local part, domain label and top-level label of the allowed shapes
      form a matching e-mail address. */
  lemma EmailLikeIntro(local: string, host: string, tld: string)
    requires IsEmailLocal(local)
    requires |host| >= 1 && forall i :: 0 <= i < |host| ==> IsEmailDomainChar(host[i])
    requires |tld| >= 2 && AllLetters(tld)
    ensures IsEmailLike(local + "@" + host + "." + tld)
  {
    var rest := "@" + host + "." + tld;
    var key := local + "@" + host + "." + tld;
    assert key == local + rest;
    assert '@' !in local by {
      forall i | 0 <= i < |local| ensures local[i] != '@' { assert IsEmailLocalChar(local[i]); }
    }
    IndexOfAfterFree(local, '@', rest);
    assert key[..|local|] == local;
    assert key[|local| + 1..] == host + "." + tld;
    EmailDomainIntro(host, tld);
  }

  lemma {:induction false} LastIndexOfBeforeFree(a: string, c: char, b: string)
    requires a != [] && a[|a| - 1] == c && c !in b
    ensures LastIndexOf(a + b, c) == Some(|a| - 1)
  {
    if b == [] {
      assert a + b == a;
    } else {
      var s := a + b;
      assert s[..|s| - 1] == a + b[..|b| - 1];
      assert s[|s| - 1] == b[|b| - 1];
      assert c !in b[..|b| - 1];
      LastIndexOfBeforeFree(a, c, b[..|b| - 1]);
    }
  }

  /** isValidTxid: 26 to 35 ASCII letters and digits. */
  predicate IsValidTxid(txid: string) {
    26 <= |txid| <= 35 && forall i :: 0 <= i < |txid| ==> IsAsciiAlnum(txid[i])
  }

  /** isValidFutureDateWithinDays: the number of milliseconds since the epoch
      (`None` for an unparseable date) lies in [today, today + maxDays days],
      where `todayStart` is the local midnight of the current day. */
  predicate IsValidFutureDateWithinDays(maxDays: int, date: Option<int>, todayStart: int) {
    date.Some? && todayStart <= date.value <= todayStart + maxDays * 86400000
  }

  /** A valid txid stays valid when cut down to any length from 26 on, and
      when extended by letters and digits up to 35; a dash, a space or any
      other symbol anywhere rules it out. */
  lemma TxidShape(txid: string, n: nat, more: string)
    ensures IsValidTxid(txid) && 26 <= n <= |txid| ==> IsValidTxid(txid[..n])
    ensures IsValidTxid(txid) && |txid + more| <= 35 && (forall i :: 0 <= i < |more| ==> IsAsciiAlnum(more[i]))
            ==> IsValidTxid(txid + more)
    ensures (exists i :: 0 <= i < |txid| && !IsAsciiAlnum(txid[i])) ==> !IsValidTxid(txid)
  {
    if IsValidTxid(txid) && |txid + more| <= 35 && (forall i :: 0 <= i < |more| ==> IsAsciiAlnum(more[i])) {
      var s := txid + more;
      assert forall i :: 0 <= i < |s| ==> IsAsciiAlnum(s[i]) by {
        forall i | 0 <= i < |s| ensures IsAsciiAlnum(s[i]) {
          if i < |txid| { assert s[i] == txid[i]; } else { assert s[i] == more[i - |txid|]; }
        }
      }
    }
  }

  /** The window of accepted dates: an unparseable date never passes; the
      local midnight of today passes for any `maxDays` from 0 on, and so does
      the last instant `maxDays` days later, but not the millisecond after it
      nor the one before today; widening the window keeps every date that
      passed. */
  lemma FutureDateWindow(maxDays: int, wider: int, date: Option<int>, todayStart: int)
    requires maxDays <= wider
    ensures !IsValidFutureDateWithinDays(maxDays, None, todayStart)
    ensures IsValidFutureDateWithinDays(maxDays, Some(todayStart), todayStart) <==> maxDays >= 0
    ensures maxDays >= 0 ==> IsValidFutureDateWithinDays(maxDays, Some(todayStart + maxDays * 86400000), todayStart)
    ensures !IsValidFutureDateWithinDays(maxDays, Some(todayStart + maxDays * 86400000 + 1), todayStart)
    ensures !IsValidFutureDateWithinDays(maxDays, Some(todayStart - 1), todayStart)
    ensures IsValidFutureDateWithinDays(maxDays, date, todayStart) ==> IsValidFutureDateWithinDays(wider, date, todayStart)
  {
    assert maxDays * 86400000 <= wider * 86400000;
  }

  predicate IsNanoid(id: string) {
    |id| == 10 && forall i :: 0 <= i < 10 ==> IsAsciiAlnum(id[i]) || id[i] == '_' || id[i] == '-'
  }

  predicate IsCuid(id: string) {
    |id| == 25 && id[0] == 'c' && forall i :: 1 <= i < 25 ==> IsLowerAscii(id[i]) || IsDigit(id[i])
  }

  /** isValidSellerId: a 10-character nanoid or a 25-character cuid. */
  function IsValidSellerId(id: string): (r: bool)
    ensures r ==> |id| in {10, 25}
    ensures |id| == 25 ==> (r <==> IsCuid(id))
    ensures |id| == 10 ==> (r <==> IsNanoid(id))
  {
    IsNanoid(id) || IsCuid(id)
  }

  const UfCodes: set<string> := {
    "AC", "AL", "AP", "AM", "BA", "CE", "DF", "ES", "GO", "MA", "MT", "MS", "MG", "PA",
    "PB", "PR", "PE", "PI", "RJ", "RN", "RS", "RO", "RR", "SC", "SP", "SE", "TO"
  }

  /** isValidUf: case-insensitive membership in the 27 federative-unit codes. */
  function IsValidUf(uf: string): (r: bool)
    ensures r ==> |uf| == 2
    ensures r <==> ToUpper(uf) in UfCodes
  {
    ToUpper(uf) in UfCodes
  }

  lemma UfExamples()
    ensures IsValidUf("sp") && IsValidUf("Rj") && !IsValidUf("XX")
  {
    assert ToUpper("sp") == "SP";
    assert ToUpper("Rj") == "RJ";
    assert ToUpper("XX") == "XX";
  }

  /** isValidCep: exactly eight digits once non-digits are dropped. */
  function IsValidCep(cep: string): (r: bool)
    ensures r <==> |DigitsOnly(cep)| == 8
  {
    var clean := DigitsOnly(cep);
    |clean| == 8 && AllDigits(clean)
  }

  /** isValidStateOrRegion: a two-character value must be a UF code; anything
      else is accepted by length alone (3 to 50). */
  function IsValidStateOrRegion(value: string): (r: bool)
    ensures JsLength(value) == 2 ==> (r <==> IsValidUf(value))
    ensures JsLength(value) != 2 ==> (r <==> 3 <= JsLength(value) <= 50)
  {
    if JsLength(value) == 2 then IsValidUf(value) else 2 <= JsLength(value) <= 50
  }

  /** Two characters outside the Basic Multilingual Plane are four code units
      long, so they are accepted by length instead of being checked as a UF. */
  lemma AstralPairIsRegion()
    ensures IsValidStateOrRegion("\U{1F600}\U{1F600}")
  {
    AstralPairIsFourUnits();
  }

  /** isValidPostalCode: eight digits is a CEP whatever else the value holds;
      otherwise only the length (4 to 20) is checked. */
  function IsValidPostalCode(value: string): (r: bool)
    ensures |DigitsOnly(value)| == 8 ==> r
    ensures |DigitsOnly(value)| != 8 ==> (r <==> 4 <= JsLength(value) <= 20)
  {
    var clean := DigitsOnly(value);
    if JsLength(clean) == 8 then IsValidCep(value) else 4 <= JsLength(value) <= 20
  }
}
