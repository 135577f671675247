// The provisional SKU of a scanned code and the search for a free one, in
// api/routes/inventory.py.

module ProvisionalSku {
  import opened Decimal

  const MAX_LEN: nat := 50

  /** Python's s[:n]: a negative n counts from the end. */
  function Take(s: string, n: int): string {
    if n >= |s| then s else if n >= 0 then s[..n] else if |s| + n >= 0 then s[..|s| + n] else ""
  }

  // ---------- The base SKU ----------

  predicate Safe(c: char) {
    'A' <= c <= 'Z' || 'a' <= c <= 'z' || '0' <= c <= '9' || c in {'.', '_', '/', '+', '*', '-'}
  }

  /** Runs of other characters become one '-'. */
  function Clean(s: string): string {
    if s == "" then ""
    else if Safe(s[|s| - 1]) then Clean(s[..|s| - 1]) + [s[|s| - 1]]
    else if |s| > 1 && !Safe(s[|s| - 2]) then Clean(s[..|s| - 1])
    else Clean(s[..|s| - 1]) + "-"
  }

  function StripDashes(s: string): string
    decreases |s|
  {
    if s != "" && s[0] == '-' then StripDashes(s[1..])
    else if s != "" && s[|s| - 1] == '-' then StripDashes(s[..|s| - 1])
    else s
  }

  /** `digest` is the first ten characters of the barcode's hex SHA-256. */
  function BaseSku(barcode: string, digest: string): string {
    var stripped := StripDashes(Clean(barcode));
    var safe := if stripped == "" then "ITEM" else stripped;
    if |"SCAN-" + safe| <= MAX_LEN then "SCAN-" + safe
    else "SCAN-" + Take(safe, 34) + "-" + digest
  }

  lemma {:induction false} CleanIsSafe(s: string)
    ensures forall i :: 0 <= i < |Clean(s)| ==> Safe(Clean(s)[i])
  {
    if s != "" { CleanIsSafe(s[..|s| - 1]); }
  }

  lemma {:induction false} StripKeepsSafe(s: string)
    requires forall i :: 0 <= i < |s| ==> Safe(s[i])
    ensures forall i :: 0 <= i < |StripDashes(s)| ==> Safe(StripDashes(s)[i])
    ensures StripDashes(s) == "" || (StripDashes(s)[0] != '-' && StripDashes(s)[|StripDashes(s)| - 1] != '-')
    decreases |s|
  {
    if s != "" && s[0] == '-' {
      StripKeepsSafe(s[1..]);
    } else if s != "" && s[|s| - 1] == '-' {
      StripKeepsSafe(s[..|s| - 1]);
    }
  }

  /** Whatever was scanned, the base SKU fits the column, is non-trivial and uses safe characters only. */
  lemma BaseSkuFits(barcode: string, digest: string)
    requires |digest| == 10 && forall i :: 0 <= i < 10 ==> Safe(digest[i])
    ensures 6 <= |BaseSku(barcode, digest)| <= MAX_LEN
    ensures forall i :: 0 <= i < |BaseSku(barcode, digest)| ==> Safe(BaseSku(barcode, digest)[i])
  {
    CleanIsSafe(barcode);
    StripKeepsSafe(Clean(barcode));
    assert forall i :: 0 <= i < 5 ==> Safe("SCAN-"[i]);
    assert forall i :: 0 <= i < 4 ==> Safe("ITEM"[i]);
  }

  // ---------- The search ----------

  /** The candidate with suffix number `n`. */
  function Candidate(base: string, n: nat): string {
    var suffix := "-" + Digits(n);
    Take(base, MAX_LEN - |suffix|) + suffix
  }

  /** The last '-' of a string fixes what follows it. */
  lemma LastDash(c: string, a: string, b: string)
    requires '-' !in a && '-' !in b && |a| < |c| && |b| < |c|
    requires c[|c| - |a|..] == a && c[|c| - |b|..] == b && c[|c| - |a| - 1] == '-' && c[|c| - |b| - 1] == '-'
    ensures a == b
  {
    assert forall i :: |c| - |a| <= i < |c| ==> c[i] == a[i - (|c| - |a|)];
    assert forall i :: |c| - |b| <= i < |c| ==> c[i] == b[i - (|c| - |b|)];
  }

  /** Despite truncation, different numbers give different candidates. */
  lemma CandidatesDiffer(base: string, m: nat, n: nat)
    requires Candidate(base, m) == Candidate(base, n)
    ensures m == n
  {
    LastDash(Candidate(base, m), Digits(m), Digits(n));
    DigitsInjective(m, n);
  }

  /** A candidate fits the column exactly while its number has fewer than fifty digits. */
  lemma CandidateFitsExactly(base: string, n: nat)
    requires |base| <= MAX_LEN
    ensures |Candidate(base, n)| <= MAX_LEN <==> |Digits(n)| < MAX_LEN
  {
  }

  function Power(k: nat): nat {
    if k == 0 then 1 else 10 * Power(k - 1)
  }

  lemma {:induction false} DigitCount(n: nat, k: nat)
    requires k >= 1
    ensures |Digits(n)| <= k <==> n < Power(k)
  {
    if n >= 10 {
      if k == 1 {
        assert Power(1) == 10;
      } else {
        DigitCount(n / 10, k - 1);
        assert n < 10 * Power(k - 1) <==> n / 10 < Power(k - 1);
      }
    } else {
      PowerAtLeast(k);
    }
  }

  lemma {:induction false} PowerAtLeast(k: nat)
    requires k >= 1
    ensures Power(k) >= 10
  {
    if k > 1 { PowerAtLeast(k - 1); }
  }

  /** The SKU of the n-th probe, from 1: the base itself, then the suffixed candidates from 2 on. */
  function Probe(base: string, n: nat): string {
    if n == 1 then base else Candidate(base, n)
  }

  ghost function Tried(base: string, n: nat): set<string> {
    set k | 2 <= k < n :: Candidate(base, k)
  }

  lemma {:induction false} TriedAreDistinct(base: string, n: nat)
    requires n >= 2
    ensures |Tried(base, n)| == n - 2
  {
    if n == 2 {
      assert Tried(base, n) == {};
    } else {
      TriedAreDistinct(base, n - 1);
      assert Tried(base, n) == Tried(base, n - 1) + {Candidate(base, n - 1)};
      if Candidate(base, n - 1) in Tried(base, n - 1) {
        var k :| 2 <= k < n - 1 && Candidate(base, k) == Candidate(base, n - 1);
        CandidatesDiffer(base, k, n - 1);
      }
    }
  }

  lemma FewTaken(skus: set<string>, base: string, n: nat)
    requires n >= 2 && forall k :: 2 <= k < n ==> Candidate(base, k) in skus
    ensures n <= |skus| + 2
  {
    TriedAreDistinct(base, n);
    SubsetIsSmaller(Tried(base, n), skus);
  }

  lemma SubsetIsSmaller(a: set<string>, b: set<string>)
    requires a <= b
    ensures |a| <= |b|
  {
    assert b == a + (b - a);
  }

  /**
   * The probe loop ends for every catalogue, within two probes more than there are SKUs,
   * on the first free SKU of its probe sequence.
   */
  method FreeSku(skus: set<string>, base: string) returns (sku: string, probes: nat)
    ensures 1 <= probes <= |skus| + 2 && sku == Probe(base, probes)
    ensures sku !in skus && forall k :: 1 <= k < probes ==> Probe(base, k) in skus
  {
    sku := base;
    var suffix := 1;
    while sku in skus
      invariant suffix >= 1 && sku == Probe(base, suffix)
      invariant forall k :: 1 <= k < suffix ==> Probe(base, k) in skus
      invariant suffix <= |skus| + 2
      decreases |skus| + 2 - suffix
    {
      assert forall k :: 2 <= k < suffix + 1 ==> Candidate(base, k) == Probe(base, k);
      FewTaken(skus, base, suffix + 1);
      suffix := suffix + 1;
      var suffixText := "-" + Digits(suffix);
      sku := Take(base, MAX_LEN - |suffixText|) + suffixText;
    }
    probes := suffix;
  }

  /** In a catalogue of fewer than 10^49 - 2 items every SKU the loop can return fits the column. */
  lemma FreeSkuFits(skus: set<string>, base: string, probes: nat)
    requires |base| <= MAX_LEN && 1 <= probes <= |skus| + 2 && |skus| + 2 < Power(49)
    ensures |Probe(base, probes)| <= MAX_LEN
  {
    if probes > 1 {
      DigitCount(probes, 49);
      CandidateFitsExactly(base, probes);
    }
  }
}
