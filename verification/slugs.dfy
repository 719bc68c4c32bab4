/** Allocating a mon-client id from an administrator's name
    (internal/registry/registry.go, uniqueSlug). */
module Slugs {
  import opened Wrappers
  import Paths

  const MAX_LEN := 32
  const ATTEMPTS := 10000

  function Suffix(i: nat): (s: string)
    ensures s != [] && s[0] == '-' && '-' !in s[1..]
  {
    "-" + Paths.Decimal(i)
  }

  /** strings.TrimRight(s, "-"). */
  function TrimRight(s: string): (r: string)
    ensures r <= s
  {
    if s != [] && s[|s| - 1] == '-' then TrimRight(s[..|s| - 1]) else s
  }

  predicate Truncates(base: string, i: nat) {
    |base| + |Suffix(i)| > MAX_LEN
  }

  function Candidate(base: string, i: nat): string
    requires |base| <= MAX_LEN && i < ATTEMPTS
  {
    SuffixFits(i);
    (if Truncates(base, i) then TrimRight(base[..MAX_LEN - |Suffix(i)|]) else base) + Suffix(i)
  }

  /** The rows the one query fetches: the base itself, or the base and a dash and
      anything. */
  predicate Queried(id: string, base: string) {
    id == base || base + "-" <= id
  }

  function FirstFree(existing: set<string>, base: string, i: nat): Option<string>
    requires |base| <= MAX_LEN && i <= ATTEMPTS
    decreases ATTEMPTS - i
  {
    if i == ATTEMPTS then None
    else
      var c := Candidate(base, i);
      if c in existing && Queried(c, base) then FirstFree(existing, base, i + 1) else Some(c)
  }

  function SlugOf(existing: set<string>, base: string): Option<string>
    requires |base| <= MAX_LEN
  {
    if base !in existing then Some(base) else FirstFree(existing, base, 2)
  }

  /** uniqueSlug, after slugify; None is the error after the last attempt. */
  method UniqueSlug(existing: set<string>, base: string) returns (slug: Option<string>)
    requires |base| <= MAX_LEN
    ensures slug == SlugOf(existing, base)
  {
    var used := set id | id in existing && Queried(id, base);
    if base !in used {
      return Some(base);
    }
    for i := 2 to ATTEMPTS
      invariant FirstFree(existing, base, 2) == FirstFree(existing, base, i)
    {
      SuffixFits(i);
      var suffix := Suffix(i);
      var candidate := base;
      if |candidate| + |suffix| > MAX_LEN {
        candidate := TrimRight(candidate[..MAX_LEN - |suffix|]);
      }
      candidate := candidate + suffix;
      if candidate !in used {
        return Some(candidate);
      }
    }
    return None;
  }

  lemma SuffixFits(i: nat)
    requires i < ATTEMPTS
    ensures |Suffix(i)| <= 5
    ensures i >= 1000 ==> |Suffix(i)| == 5
  {
    assert i >= 10 ==> Paths.Decimal(i) == Paths.Decimal(i / 10) + [Paths.Digit(i % 10)];
    assert i >= 100 ==> Paths.Decimal(i / 10) == Paths.Decimal(i / 10 / 10) + [Paths.Digit(i / 10 % 10)];
    assert i >= 1000 ==> Paths.Decimal(i / 10 / 10) == Paths.Decimal(i / 10 / 10 / 10) + [Paths.Digit(i / 10 / 10 % 10)];
  }

  // ---- when the id is really free ----

  lemma {:induction false} FreeUnlessTruncated(existing: set<string>, base: string, i: nat)
    requires |base| <= MAX_LEN && i <= ATTEMPTS && FirstFree(existing, base, i).Some?
    requires forall j :: i <= j < ATTEMPTS ==> !Truncates(base, j)
    ensures FirstFree(existing, base, i).value !in existing
    decreases ATTEMPTS - i
  {
    var c := Candidate(base, i);
    assert !Truncates(base, i);
    assert base + "-" == c[..|base| + 1];
    if c in existing {
      FreeUnlessTruncated(existing, base, i + 1);
    }
  }

  /** A truncated candidate is one the query never looks for. */
  lemma TruncatedIsNotQueried(base: string, i: nat)
    requires |base| <= MAX_LEN && i < ATTEMPTS && Truncates(base, i)
    ensures !(base + "-" <= Candidate(base, i))
  {
    SuffixFits(i);
    var stem := TrimRight(base[..MAX_LEN - |Suffix(i)|]);
    var c := Candidate(base, i);
    if |base| < |c| {
      assert c[|base|] == Suffix(i)[1..][|base| - |stem| - 1];
      assert c[|base|] != '-';
    }
  }

  lemma NextDiffers(base: string, i: nat)
    requires |base| <= MAX_LEN && i + 1 < ATTEMPTS
    ensures Candidate(base, i) != Candidate(base, i + 1)
  {
    LastDigit(i);
    LastDigit(i + 1);
    var c, d := Candidate(base, i), Candidate(base, i + 1);
    assert c[|c| - 1] == Paths.Digit(i % 10) && d[|d| - 1] == Paths.Digit((i + 1) % 10);
  }

  lemma LastDigit(i: nat)
    ensures Suffix(i)[|Suffix(i)| - 1] == Paths.Digit(i % 10)
  {
  }

  /** Every id the loop can try. */
  function Crowd(base: string): set<string>
    requires |base| <= MAX_LEN
  {
    {base} + set i: nat | 2 <= i < ATTEMPTS :: Candidate(base, i)
  }

  lemma {:induction false} FirstFreeIsATry(existing: set<string>, base: string, i: nat)
    requires |base| <= MAX_LEN && 2 <= i <= ATTEMPTS
    ensures FirstFree(existing, base, i).Some? ==> FirstFree(existing, base, i).value in Crowd(base)
    decreases ATTEMPTS - i
  {
    if i < ATTEMPTS {
      FirstFreeIsATry(existing, base, i + 1);
    }
  }

  lemma {:induction false} FindsAny(existing: set<string>, base: string, i: nat, k: nat)
    requires |base| <= MAX_LEN && i <= k < ATTEMPTS && !(Candidate(base, k) in existing && Queried(Candidate(base, k), base))
    ensures FirstFree(existing, base, i).Some?
    decreases k - i
  {
    if i < k {
      FindsAny(existing, base, i + 1, k);
    }
  }

  /** The id found is free in every registry exactly when the base leaves room for
      every suffix: a longer base meets a registry in which the loop settles for a
      truncated id that is taken. */
  lemma FreshIffSuffixesFit(base: string)
    requires |base| <= MAX_LEN
    ensures (forall existing: set<string> :: SlugOf(existing, base).Some? ==> SlugOf(existing, base).value !in existing)
            <==> |base| <= MAX_LEN - 5
  {
    if |base| <= MAX_LEN - 5 {
      forall existing: set<string> | SlugOf(existing, base).Some?
        ensures SlugOf(existing, base).value !in existing
      {
        if base in existing {
          forall j | 2 <= j < ATTEMPTS ensures !Truncates(base, j) {
            SuffixFits(j);
          }
          FreeUnlessTruncated(existing, base, 2);
        }
      }
    } else {
      var crowd := Crowd(base);
      SuffixFits(9998);
      SuffixFits(9999);
      TruncatedIsNotQueried(base, 9998);
      TruncatedIsNotQueried(base, 9999);
      NextDiffers(base, 9998);
      FindsAny(crowd, base, 2, if Candidate(base, 9998) == base then 9999 else 9998);
      FirstFreeIsATry(crowd, base, 2);
      assert SlugOf(crowd, base).Some? && SlugOf(crowd, base).value in crowd;
    }
  }
}
