/** Bill and receipt numbers: a zero-padded printer, its parser, and loops that look for an unused
    number in a branch. */
module BillNumbers {

  const BILL_PREFIX := "BILL-"
  const RECEIPT_PREFIX := "RCPT-"

  // ---------------------------------------------------------------------------
  // Decimal numerals
  // ---------------------------------------------------------------------------

  predicate IsDigit(c: char) {
    '0' <= c <= '9'
  }

  predicate AllDigits(s: string) {
    forall i | 0 <= i < |s| :: IsDigit(s[i])
  }

  function DigitValue(c: char): (d: nat)
    requires IsDigit(c)
    ensures d < 10
  {
    c as int - '0' as int
  }

  function DigitChar(d: nat): (c: char)
    requires d < 10
    ensures IsDigit(c) && DigitValue(c) == d
  {
    ('0' as int + d) as char
  }

  function Decimal(n: nat): string {
    if n < 10 then [DigitChar(n)] else Decimal(n / 10) + [DigitChar(n % 10)]
  }

  function Parse(s: string): nat
    requires AllDigits(s)
  {
    if s == [] then 0 else Parse(s[..|s| - 1]) * 10 + DigitValue(s[|s| - 1])
  }

  function Zeros(k: nat): string {
    if k == 0 then [] else Zeros(k - 1) + ['0']
  }

  /** `padStart(width, "0")` */
  function PadStart(s: string, width: nat): string {
    if |s| >= width then s else Zeros(width - |s|) + s
  }

  lemma {:induction false} ZerosAreDigits(k: nat)
    ensures |Zeros(k)| == k && AllDigits(Zeros(k)) && Parse(Zeros(k)) == 0
  {
    if k > 0 {
      ZerosAreDigits(k - 1);
      assert Zeros(k)[..k - 1] == Zeros(k - 1);
    }
  }

  lemma {:induction false} DecimalParses(n: nat)
    ensures |Decimal(n)| >= 1 && AllDigits(Decimal(n)) && Parse(Decimal(n)) == n
    ensures n > 0 ==> Decimal(n)[0] != '0'
  {
    if n < 10 {
      assert Decimal(n)[..0] == [];
    } else {
      DecimalParses(n / 10);
      assert Decimal(n)[..|Decimal(n)| - 1] == Decimal(n / 10);
    }
  }

  lemma {:induction false} LeadingZerosDoNotCount(k: nat, s: string)
    requires AllDigits(s)
    ensures AllDigits(Zeros(k) + s) && Parse(Zeros(k) + s) == Parse(s)
  {
    ZerosAreDigits(k);
    if s == [] {
      assert Zeros(k) + s == Zeros(k);
    } else {
      LeadingZerosDoNotCount(k, s[..|s| - 1]);
      assert (Zeros(k) + s)[..k + |s| - 1] == Zeros(k) + s[..|s| - 1];
    }
  }

  lemma PaddedParses(n: nat, width: nat)
    ensures |PadStart(Decimal(n), width)| >= 1 && AllDigits(PadStart(Decimal(n), width))
    ensures Parse(PadStart(Decimal(n), width)) == n
  {
    DecimalParses(n);
    if |Decimal(n)| < width {
      LeadingZerosDoNotCount(width - |Decimal(n)|, Decimal(n));
    }
  }

  // ---------------------------------------------------------------------------
  // Bill numbers
  // ---------------------------------------------------------------------------

  function Print(sequence: nat): string {
    BILL_PREFIX + PadStart(Decimal(sequence), 5)
  }

  predicate StartsWith(s: string, prefix: string) {
    |prefix| <= |s| && s[..|prefix|] == prefix
  }

  /** `^BILL-(\d+)$` */
  predicate MatchesBillNumber(s: string) {
    StartsWith(s, BILL_PREFIX) && |s| > 5 && AllDigits(s[5..])
  }

  function SequenceOf(s: string): nat {
    if MatchesBillNumber(s) then Parse(s[5..]) else 0
  }

  /** Reading back a printed number gives its sequence number. */
  lemma PrintThenRead(n: nat)
    ensures MatchesBillNumber(Print(n)) && SequenceOf(Print(n)) == n
  {
    PaddedParses(n, 5);
    assert Print(n)[..5] == BILL_PREFIX && Print(n)[5..] == PadStart(Decimal(n), 5);
  }

  lemma PrintIsInjective(a: nat, b: nat)
    requires Print(a) == Print(b)
    ensures a == b
  {
    PrintThenRead(a);
    PrintThenRead(b);
  }

  /** Five digits, or more without a leading zero. */
  predicate Canonical(s: string) {
    MatchesBillNumber(s) && |s| >= 10 && (|s| > 10 ==> s[5] != '0')
  }

  lemma {:induction false} DecimalOf(s: string)
    requires AllDigits(s) && s != [] && s[0] != '0'
    ensures Decimal(Parse(s)) == s
    decreases |s|
  {
    if |s| == 1 {
      assert s[..0] == [] && Parse(s) == DigitValue(s[0]);
    } else {
      DecimalOf(s[..|s| - 1]);
      PositiveParse(s[..|s| - 1]);
      assert s[..|s| - 1] + [s[|s| - 1]] == s;
    }
  }

  lemma {:induction false} PositiveParse(s: string)
    requires AllDigits(s) && s != [] && s[0] != '0'
    ensures Parse(s) > 0
  {
    if |s| > 1 {
      PositiveParse(s[..|s| - 1]);
    } else {
      assert s[..0] == [];
    }
  }

  lemma {:induction false} PaddedOf(s: string, width: nat)
    requires AllDigits(s) && |s| == width >= 1
    ensures PadStart(Decimal(Parse(s)), width) == s
  {
    var k := LeadingZeros(s);
    if k == width {
      ZerosAreDigits(width - 1);
      ZerosAreDigits(width);
      assert s == Zeros(width - 1) + ['0'];
    } else {
      ZerosAreDigits(k);
      assert Zeros(k) + s[k..] == s;
      LeadingZerosDoNotCount(k, s[k..]);
      DecimalOf(s[k..]);
    }
  }

  lemma {:induction false} LeadingZeros(s: string) returns (k: nat)
    ensures k <= |s| && s[..k] == Zeros(k) && (k < |s| ==> s[k] != '0')
  {
    k := 0;
    while k < |s| && s[k] == '0'
      invariant k <= |s| && s[..k] == Zeros(k)
    {
      assert s[..k + 1] == s[..k] + ['0'];
      k := k + 1;
    }
  }

  lemma PrintIsCanonical(n: nat)
    ensures Canonical(Print(n))
  {
    PrintThenRead(n);
    DecimalParses(n);
    if |Decimal(n)| < 5 {
      ZerosAreDigits(5 - |Decimal(n)|);
    } else {
      assert Print(n)[5..] == Decimal(n);
      assert |Decimal(n)| > 1 ==> n > 0;
    }
  }

  lemma CanonicalPrints(s: string)
    requires Canonical(s)
    ensures Print(SequenceOf(s)) == s
  {
    assert s == BILL_PREFIX + s[5..];
    if |s| == 10 {
      PaddedOf(s[5..], 5);
    } else {
      DecimalOf(s[5..]);
    }
  }

  /** Printing the sequence number read from a string gives the string back exactly for canonical
      bill numbers. */
  lemma ReadThenPrintIff(s: string)
    ensures Print(SequenceOf(s)) == s <==> Canonical(s)
  {
    hide Print, Canonical;
    PrintIsCanonical(SequenceOf(s));
    if Canonical(s) {
      CanonicalPrints(s);
    }
  }

  /** The least unused sequence number at or above k. */
  function FirstUnused(used: set<string>, k: nat): nat
    decreases |used|
  {
    if Print(k) in used then FirstUnused(used - {Print(k)}, k + 1) else k
  }

  lemma {:induction false} FirstUnusedMeaning(used: set<string>, k: nat)
    ensures FirstUnused(used, k) >= k && Print(FirstUnused(used, k)) !in used
    ensures forall j: nat | k <= j < FirstUnused(used, k) :: Print(j) in used
    decreases |used|
  {
    hide Print;
    if Print(k) in used {
      FirstUnusedMeaning(used - {Print(k)}, k + 1);
      var r := FirstUnused(used, k);
      if Print(r) == Print(k) {
        PrintIsInjective(r, k);
      }
    }
  }

  /** The next bill number of a branch, after the branch's most recent bill. */
  function NextBillNumber(latest: string, used: set<string>): string {
    Print(FirstUnused(used, SequenceOf(latest) + 1))
  }

  /** The search for a number, with the database's unique index as `used`. */
  method GenerateBillNumber(latest: string, used: set<string>) returns (number: string)
    ensures number !in used && number == NextBillNumber(latest, used)
  {
    hide Print, SequenceOf;
    var sequence := SequenceOf(latest) + 1;
    ghost var rest := used;
    ghost var start := sequence;
    while true
      invariant sequence >= start && rest <= used
      invariant FirstUnused(used, start) == FirstUnused(rest, sequence)
      invariant forall s | s in used && s !in rest :: exists j :: start <= j < sequence && s == Print(j)
      decreases |rest|
    {
      number := Print(sequence);
      if number !in used {
        return;
      }
      if number !in rest {
        var j :| start <= j < sequence && number == Print(j);
        PrintIsInjective(j, sequence);
      }
      rest := rest - {number};
      sequence := sequence + 1;
    }
  }

  /** The number after a branch's numbers so far, in order of creation. */
  function NextNumberAfter(numbers: seq<string>): string {
    NextBillNumber(if numbers == [] then "" else numbers[|numbers| - 1], Used(numbers))
  }

  /** Issuing one number after another, each after the last and unused before. */
  function Issue(numbers: seq<string>): seq<string> {
    numbers + [NextNumberAfter(numbers)]
  }

  function Used(numbers: seq<string>): set<string> {
    set i | 0 <= i < |numbers| :: numbers[i]
  }

  ghost predicate Distinct(numbers: seq<string>) {
    forall i, j | 0 <= i < j < |numbers| :: numbers[i] != numbers[j]
  }

  /** Whatever numbers a branch starts with, new ones never repeat an old one. */
  lemma IssueKeepsDistinct(numbers: seq<string>)
    requires Distinct(numbers)
    ensures Distinct(Issue(numbers))
  {
    hide Print, SequenceOf;
    var latest := if numbers == [] then "" else numbers[|numbers| - 1];
    FirstUnusedMeaning(Used(numbers), SequenceOf(latest) + 1);
    forall i | 0 <= i < |numbers|
      ensures numbers[i] != NextBillNumber(latest, Used(numbers))
    {
      assert numbers[i] in Used(numbers);
    }
  }

  /** The numbers 1, 2, 3 and so on, printed. */
  ghost predicate Consecutive(numbers: seq<string>) {
    forall i | 0 <= i < |numbers| :: numbers[i] == Print(i + 1)
  }

  /** A branch numbered from scratch has no gaps: its n-th bill has sequence number n, and no number comes
      up twice. */
  lemma IssueKeepsConsecutive(numbers: seq<string>)
    requires Consecutive(numbers)
    ensures Consecutive(Issue(numbers)) && Distinct(Issue(numbers))
  {
    hide Print, SequenceOf, NextNumberAfter;
    NextIsConsecutive(numbers);
    ConsecutiveIsDistinct(Issue(numbers));
  }

  lemma NextIsConsecutive(numbers: seq<string>)
    requires Consecutive(numbers)
    ensures NextNumberAfter(numbers) == Print(|numbers| + 1)
  {
    hide Print, SequenceOf;
    var n := |numbers|;
    if n > 0 {
      PrintThenRead(n);
    } else {
      NoSequence();
    }
    if Print(n + 1) in Used(numbers) {
      var i :| 0 <= i < n && numbers[i] == Print(n + 1);
      PrintIsInjective(i + 1, n + 1);
    }
  }

  lemma NoSequence()
    ensures SequenceOf("") == 0
  {}

  lemma ConsecutiveIsDistinct(numbers: seq<string>)
    requires Consecutive(numbers)
    ensures Distinct(numbers)
  {
    hide Print;
    forall i, j | 0 <= i < j < |numbers|
      ensures numbers[i] != numbers[j]
    {
      if numbers[i] == numbers[j] {
        PrintIsInjective(i + 1, j + 1);
      }
    }
  }

  // ---------------------------------------------------------------------------
  // Receipt numbers
  // ---------------------------------------------------------------------------

  /** `String.replace` with a string pattern: the first occurrence only. */
  function ReplaceFirst(s: string, pattern: string, replacement: string): string {
    if StartsWith(s, pattern) then replacement + s[|pattern|..]
    else if s == [] then s
    else [s[0]] + ReplaceFirst(s[1..], pattern, replacement)
  }

  function BaseReceiptNumber(billNumber: string): string {
    ReplaceFirst(billNumber, BILL_PREFIX, RECEIPT_PREFIX)
  }

  /** The base number first, then the base with suffix -2, -3 and so on. */
  function ReceiptCandidate(base: string, suffix: nat): string {
    if suffix < 2 then base else base + "-" + Decimal(suffix)
  }

  lemma CandidateIsInjective(base: string, a: nat, b: nat)
    requires 1 <= a && 1 <= b && ReceiptCandidate(base, a) == ReceiptCandidate(base, b)
    ensures a == b
  {
    DecimalParses(a);
    DecimalParses(b);
    CandidateTail(base, a);
    CandidateTail(base, b);
  }

  lemma CandidateTail(base: string, a: nat)
    requires 1 <= a
    ensures var c := ReceiptCandidate(base, a);
            |c| >= |base| && (a < 2 <==> |c| <= |base| + 1) && (a >= 2 ==> c[|base| + 1..] == Decimal(a))
  {
    DecimalParses(a);
  }

  function FirstFreeSuffix(used: set<string>, base: string, suffix: nat): nat
    decreases |used|
  {
    if ReceiptCandidate(base, suffix) in used
    then FirstFreeSuffix(used - {ReceiptCandidate(base, suffix)}, base, suffix + 1)
    else suffix
  }

  function NextReceiptNumber(billNumber: string, used: set<string>): string {
    ReceiptCandidate(BaseReceiptNumber(billNumber), FirstFreeSuffix(used, BaseReceiptNumber(billNumber), 1))
  }

  lemma {:induction false} FirstFreeSuffixMeaning(used: set<string>, base: string, suffix: nat)
    requires suffix >= 1
    ensures FirstFreeSuffix(used, base, suffix) >= suffix
    ensures ReceiptCandidate(base, FirstFreeSuffix(used, base, suffix)) !in used
    ensures forall j | suffix <= j < FirstFreeSuffix(used, base, suffix) :: ReceiptCandidate(base, j) in used
    decreases |used|
  {
    hide ReceiptCandidate;
    if ReceiptCandidate(base, suffix) in used {
      FirstFreeSuffixMeaning(used - {ReceiptCandidate(base, suffix)}, base, suffix + 1);
      var r := FirstFreeSuffix(used, base, suffix);
      if ReceiptCandidate(base, r) == ReceiptCandidate(base, suffix) {
        CandidateIsInjective(base, r, suffix);
      }
    }
  }

  method GenerateReceiptNumber(billNumber: string, used: set<string>) returns (number: string)
    ensures number !in used && number == NextReceiptNumber(billNumber, used)
  {
    hide ReceiptCandidate;
    var base := BaseReceiptNumber(billNumber);
    BaseIsCandidate(base);
    number := base;
    var suffix := 2;
    ghost var rest := used;
    while true
      invariant suffix >= 2 && rest <= used && number == ReceiptCandidate(base, suffix - 1)
      invariant FirstFreeSuffix(used, base, 1) == FirstFreeSuffix(rest, base, suffix - 1)
      invariant forall s | s in used && s !in rest :: exists j :: 1 <= j < suffix - 1 && s == ReceiptCandidate(base, j)
      decreases |rest|
    {
      if number !in used {
        return;
      }
      if number !in rest {
        var j :| 1 <= j < suffix - 1 && number == ReceiptCandidate(base, j);
        CandidateIsInjective(base, j, suffix - 1);
      }
      rest := rest - {number};
      SuffixedIsCandidate(base, suffix);
      number := base + "-" + Decimal(suffix);
      suffix := suffix + 1;
    }
  }

  lemma BaseIsCandidate(base: string)
    ensures ReceiptCandidate(base, 1) == base
  {}

  lemma SuffixedIsCandidate(base: string, suffix: nat)
    requires suffix >= 2
    ensures ReceiptCandidate(base, suffix) == base + "-" + Decimal(suffix)
  {}

  /** Printed bill numbers differ, so their receipts' base numbers do. */
  lemma BaseIsInjective(a: nat, b: nat)
    requires BaseReceiptNumber(Print(a)) == BaseReceiptNumber(Print(b))
    ensures a == b
  {
    PrintThenRead(a);
    PrintThenRead(b);
    assert BaseReceiptNumber(Print(a))[5..] == Print(a)[5..];
    assert BaseReceiptNumber(Print(b))[5..] == Print(b)[5..];
    assert Print(a) == BILL_PREFIX + Print(a)[5..] && Print(b) == BILL_PREFIX + Print(b)[5..];
    PrintIsInjective(a, b);
  }
}
