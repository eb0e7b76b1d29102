/** The search for a free display name when the command-line tool creates an administrator. */
module AdminName {
  import opened Common

  /** `split('@')[0]`. */
  function LocalPart(email: string): string {
    if email == "" || email[0] == '@' then "" else [email[0]] + LocalPart(email[1..])
  }

  function NameBase(email: string): (base: string)
    ensures |base| <= 27
  {
    var local := LocalPart(email);
    if |local| <= 27 then local else local[..27]
  }

  /** The base is the address up to the first '@', cut after 27 characters. */
  lemma BaseIsTheStart(email: string)
    ensures NameBase(email) <= email && '@' !in NameBase(email)
    ensures |NameBase(email)| == 27 || |NameBase(email)| == |email|
            || (|NameBase(email)| < 27 && email[|NameBase(email)|] == '@')
  {
    LocalPartEnds(email);
  }

  lemma {:induction false} LocalPartEnds(email: string)
    ensures LocalPart(email) <= email && '@' !in LocalPart(email)
    ensures |LocalPart(email)| == |email| || email[|LocalPart(email)|] == '@'
  {
    if email != "" && email[0] != '@' {
      LocalPartEnds(email[1..]);
    }
  }

  const DIGITS := "0123456789"

  function Decimal(n: nat): string {
    if n < 10 then [DIGITS[n]] else Decimal(n / 10) + [DIGITS[n % 10]]
  }

  /** The name tried with a given suffix; 0 stands for no suffix. */
  function Candidate(base: string, suffix: nat): string {
    if suffix == 0 then base else base + Decimal(suffix)
  }

  // ---------------------------------------------------------------------------
  // Decimal suffixes are injective and short
  // ---------------------------------------------------------------------------

  function DigitValue(c: char): int {
    c as int - '0' as int
  }

  function Value(s: string): int {
    if s == "" then 0 else 10 * Value(s[..|s| - 1]) + DigitValue(s[|s| - 1])
  }

  lemma {:induction false} ValueOfDecimal(n: nat)
    ensures Value(Decimal(n)) == n
  {
    var s := Decimal(n);
    assert DigitValue(DIGITS[n % 10]) == n % 10;
    if n < 10 {
      assert s[..|s| - 1] == "";
    } else {
      assert s[..|s| - 1] == Decimal(n / 10);
      ValueOfDecimal(n / 10);
    }
  }

  /** Without a suffix a candidate is the base; with one the base is followed by the suffix in decimal digits, with no
      zero in front. */
  lemma CandidateReads(base: string, suffix: nat)
    ensures base <= Candidate(base, suffix)
    ensures var digits := Candidate(base, suffix)[|base|..];
            && Value(digits) == suffix && (forall c :: c in digits ==> '0' <= c <= '9')
            && (suffix == 0 <==> digits == "") && (suffix > 0 ==> digits[0] != '0')
  {
    if suffix > 0 {
      assert Candidate(base, suffix)[|base|..] == Decimal(suffix);
      ValueOfDecimal(suffix);
      DecimalDigits(suffix);
    }
  }

  lemma {:induction false} DecimalDigits(n: nat)
    ensures Decimal(n) != "" && (forall c :: c in Decimal(n) ==> '0' <= c <= '9') && (n > 0 ==> Decimal(n)[0] != '0')
  {
    assert forall k :: 0 <= k < 10 ==> '0' <= DIGITS[k] <= '9' && (k > 0 ==> DIGITS[k] != '0');
    if n >= 10 {
      DecimalDigits(n / 10);
    }
  }

  lemma CandidatesDiffer(base: string, i: nat, j: nat)
    requires Candidate(base, i) == Candidate(base, j)
    ensures i == j
  {
    if i == 0 || j == 0 {
      DecimalLength(i);
      DecimalLength(j);
      assert |Candidate(base, i)| == |base| <==> i == 0;
      assert |Candidate(base, j)| == |base| <==> j == 0;
    } else {
      assert Candidate(base, i)[|base|..] == Decimal(i) && Candidate(base, j)[|base|..] == Decimal(j);
      ValueOfDecimal(i);
      ValueOfDecimal(j);
    }
  }

  lemma {:induction false} DecimalLength(n: nat)
    ensures |Decimal(n)| >= 1
    ensures |Decimal(n)| <= 3 <==> n < 1000
    ensures |Decimal(n)| <= 2 <==> n < 100
    ensures |Decimal(n)| <= 1 <==> n < 10
  {
    if n >= 10 {
      DecimalLength(n / 10);
    }
  }

  lemma {:induction false} LongerDecimals(m: nat, n: nat)
    requires m <= n
    ensures |Decimal(m)| <= |Decimal(n)|
  {
    if m >= 10 {
      LongerDecimals(m / 10, n / 10);
    } else {
      DecimalLength(n);
    }
  }

  lemma LongerCandidates(base: string, i: nat, j: nat)
    requires i <= j
    ensures |Candidate(base, i)| <= |Candidate(base, j)|
  {
    LongerDecimals(i, j);
  }

  // ---------------------------------------------------------------------------
  // The search
  // ---------------------------------------------------------------------------

  /** The names tried before a given suffix. */
  function Tried(base: string, suffix: nat): set<string> {
    set k | 0 <= k < suffix :: Candidate(base, k)
  }

  lemma {:induction false} TriedAreDistinct(base: string, suffix: nat)
    ensures |Tried(base, suffix)| == suffix
  {
    if suffix > 0 {
      TriedAreDistinct(base, suffix - 1);
      assert Tried(base, suffix) == Tried(base, suffix - 1) + {Candidate(base, suffix - 1)};
      UntriedYet(base, suffix - 1);
    }
  }

  lemma UntriedYet(base: string, suffix: nat)
    ensures Candidate(base, suffix) !in Tried(base, suffix)
  {
    if Candidate(base, suffix) in Tried(base, suffix) {
      var k :| 0 <= k < suffix && Candidate(base, k) == Candidate(base, suffix);
      CandidatesDiffer(base, k, suffix);
    }
  }

  /** A candidate that is not taken and fits the column's 30 characters. */
  ghost predicate FitsFree(email: string, taken: set<string>, k: nat) {
    Candidate(NameBase(email), k) !in taken && |Candidate(NameBase(email), k)| <= 30
  }

  /** Terminates for every finite set of taken names, with the smallest free suffix; that suffix is at
      most the number of taken names. The name fits the column exactly if any free candidate does. */
  method FindDisplayName(email: string, taken: set<string>) returns (displayName: string, suffix: nat)
    ensures displayName == Candidate(NameBase(email), suffix) && displayName !in taken
    ensures forall k :: 0 <= k < suffix ==> Candidate(NameBase(email), k) in taken
    ensures suffix <= |taken|
    ensures |displayName| <= 30 <==> exists k :: FitsFree(email, taken, k)
    ensures |taken| < 1000 ==> |displayName| <= 30
  {
    var base := NameBase(email);
    displayName := base;
    suffix := 0;
    while displayName in taken
      invariant displayName == Candidate(base, suffix)
      invariant forall k :: 0 <= k < suffix ==> Candidate(base, k) in taken
      invariant suffix <= |taken|
      decreases |taken| - suffix
    {
      assert Tried(base, suffix + 1) <= taken;
      TriedAreDistinct(base, suffix + 1);
      SubsetSize(Tried(base, suffix + 1), taken);
      suffix := suffix + 1;
      displayName := base + Decimal(suffix);
    }
    DecimalLength(suffix);
    assert |displayName| <= 30 ==> FitsFree(email, taken, suffix);
    forall k | FitsFree(email, taken, k) ensures |displayName| <= 30
    {
      LongerCandidates(base, suffix, k);
    }
  }

  /** For a base of the full 27 characters the column's 30 characters suffice exactly below suffix 1000. */
  lemma FullBaseFitsBelowThousand(base: string, suffix: nat)
    requires |base| == 27
    ensures |Candidate(base, suffix)| <= 30 <==> suffix < 1000
  {
    DecimalLength(suffix);
  }

  /** A thousand users can be enough to push the search past 30 characters. */
  lemma ThousandUsersCanOverflow(base: string) returns (taken: set<string>)
    requires |base| == 27
    ensures |taken| == 1000
    ensures forall k: nat :: Candidate(base, k) !in taken ==> |Candidate(base, k)| > 30
  {
    taken := Tried(base, 1000);
    TriedAreDistinct(base, 1000);
    forall k: nat | Candidate(base, k) !in taken
      ensures |Candidate(base, k)| > 30
    {
      FullBaseFitsBelowThousand(base, k);
    }
  }
}
