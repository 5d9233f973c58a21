/**
 * The naming rule that keeps process-session names unique (src/lib.rs,
 * the loop in GetAllProcessSessions): while some session already carries the
 * candidate name, the candidate becomes `candidate(counter)` and the counter,
 * which starts at 2, goes up by one. The suffix is appended to the already
 * suffixed candidate, so suffixes accumulate: `app`, `app(2)`, `app(2)(3)`.
 */
module SessionNaming {

  function DecimalDigit(d: nat): (c: char)
    requires d < 10
    ensures '0' <= c <= '9' && DigitValue(c) == d
  {
    ('0' as int + d) as char
  }

  /** The value of a decimal digit. */
  function DigitValue(c: char): nat
    requires '0' <= c <= '9'
  {
    c as int - '0' as int
  }

  predicate AllDigits(s: string)
  {
    forall i :: 0 <= i < |s| ==> '0' <= s[i] <= '9'
  }

  /** The number a string of decimal digits denotes, most significant digit first. */
  function DecimalValue(s: string): nat
    requires AllDigits(s)
  {
    if s == [] then 0 else DecimalValue(s[..|s| - 1]) * 10 + DigitValue(s[|s| - 1])
  }

  /** `format!("{}", n)` of a natural number. */
  function Decimal(n: nat): (r: string)
    ensures |r| >= 1
    ensures AllDigits(r)
  {
    if n < 10 then [DecimalDigit(n)] else Decimal(n / 10) + [DecimalDigit(n % 10)]
  }

  /** Reading the digits back gives the number: `{}` loses nothing. */
  lemma {:induction false} DecimalValueOfDecimal(n: nat)
    ensures DecimalValue(Decimal(n)) == n
  {
    var s := Decimal(n);
    assert s[..|s| - 1] == if n < 10 then [] else Decimal(n / 10);
    if n >= 10 {
      DecimalValueOfDecimal(n / 10);
    }
  }

  /** `{}` writes no leading zero: only 0 itself starts with `0`. */
  lemma {:induction false} DecimalNoLeadingZero(n: nat)
    ensures Decimal(n)[0] == '0' <==> n == 0
    ensures |Decimal(n)| > 1 ==> Decimal(n)[0] != '0'
  {
    if n >= 10 {
      DecimalNoLeadingZero(n / 10);
    }
  }

  /** Distinct counters are written differently. */
  lemma DecimalInjective(a: nat, b: nat)
    ensures Decimal(a) == Decimal(b) <==> a == b
  {
    DecimalValueOfDecimal(a);
    DecimalValueOfDecimal(b);
  }

  /** The text one pass of the loop appends: `(counter)`. */
  function Suffix(counter: nat): (r: string)
    ensures |r| >= 3 && r[0] == '(' && r[|r| - 1] == ')'
  {
    "(" + Decimal(counter) + ")"
  }

  /** Suffix(from) + Suffix(from + 1) + ... + Suffix(from + k - 1). */
  function Suffixes(from: nat, k: nat): (r: string)
    ensures |r| >= 3 * k
    decreases k
  {
    if k == 0 then "" else Suffix(from) + Suffixes(from + 1, k - 1)
  }

  /** How many names in `names` are at least `len` characters long. */
  function CountAtLeast(names: seq<string>, len: nat): (n: nat)
    ensures n <= |names|
  {
    if names == [] then 0
    else (if |names[0]| >= len then 1 else 0) + CountAtLeast(names[1..], len)
  }

  lemma {:induction false} CountAtLeastMonotone(names: seq<string>, short: nat, long: nat)
    requires short <= long
    ensures CountAtLeast(names, long) <= CountAtLeast(names, short)
  {
    if names != [] {
      CountAtLeastMonotone(names[1..], short, long);
    }
  }

  /**
   * Replacing a name that occurs in `names` by a longer one leaves strictly
   * fewer names at least as long: the measure on which the loop terminates.
   */
  lemma {:induction false} CountAtLeastShrinks(names: seq<string>, name: string, longer: string)
    requires name in names && |name| < |longer|
    ensures CountAtLeast(names, |longer|) < CountAtLeast(names, |name|)
  {
    if names[0] == name {
      CountAtLeastMonotone(names[1..], |name|, |longer|);
    } else {
      assert name in names[1..];
      CountAtLeastShrinks(names[1..], name, longer);
    }
  }

  /** The name the loop settles on, from candidate `name` with the counter at `counter`. */
  function Deduplicated(names: seq<string>, name: string, counter: nat): (r: string)
    ensures r !in names
    ensures name !in names ==> r == name
    decreases CountAtLeast(names, |name|)
  {
    if name in names then
      CountAtLeastShrinks(names, name, name + Suffix(counter));
      Deduplicated(names, name + Suffix(counter), counter + 1)
    else name
  }

  /**
   * `k` passes explain the result of the loop: it is the candidate followed
   * by the suffixes of the first k passes, and every earlier candidate was
   * taken, so k is the least number of passes that gives a free name.
   */
  predicate SettlesAfter(names: seq<string>, name: string, counter: nat, k: nat)
  {
    && Deduplicated(names, name, counter) == name + Suffixes(counter, k)
    && forall j :: 0 <= j < k ==> name + Suffixes(counter, j) in names
  }

  /** The loop always settles, after no more passes than there are names at least as long as the candidate. */
  lemma {:induction false} DeduplicatedShape(names: seq<string>, name: string, counter: nat)
    ensures exists k: nat :: k <= CountAtLeast(names, |name|) && SettlesAfter(names, name, counter, k)
    decreases CountAtLeast(names, |name|)
  {
    if name in names {
      var next, c1 := name + Suffix(counter), counter + 1;
      CountAtLeastShrinks(names, name, next);
      DeduplicatedShape(names, next, c1);
      var k: nat :| k <= CountAtLeast(names, |next|) && SettlesAfter(names, next, c1, k);
      SettlesOneEarlier(names, name, counter, k);
    } else {
      assert name + Suffixes(counter, 0) == name;
      assert SettlesAfter(names, name, counter, 0);
    }
  }

  /** One step of DeduplicatedShape: a taken candidate settles one pass later than its successor. */
  lemma SettlesOneEarlier(names: seq<string>, name: string, counter: nat, k: nat)
    requires name in names
    requires SettlesAfter(names, name + Suffix(counter), counter + 1, k)
    ensures SettlesAfter(names, name, counter, k + 1)
  {
    var next, c1 := name + Suffix(counter), counter + 1;
    CandidateAfter(name, counter, k);
    assert Deduplicated(names, name, counter) == Deduplicated(names, next, c1);
    forall j | 0 <= j < k + 1
      ensures name + Suffixes(counter, j) in names
    {
      if j > 0 {
        CandidateAfter(name, counter, j - 1);
        assert next + Suffixes(c1, j - 1) in names;
      } else {
        assert name + Suffixes(counter, 0) == name;
      }
    }
  }

  /** The candidate after j + 1 passes is the successor's candidate after j passes. */
  lemma CandidateAfter(name: string, counter: nat, j: nat)
    ensures name + Suffixes(counter, j + 1) == (name + Suffix(counter)) + Suffixes(counter + 1, j)
  {
    var a, b := Suffix(counter), Suffixes(counter + 1, j);
    assert Suffixes(counter, j + 1) == a + b;
    assert name + (a + b) == (name + a) + b;
  }

  /** Since k is bounded by the number of names, the final counter is at most 2 + |names|. */
  lemma DeduplicationPassesBounded(names: seq<string>, name: string)
    ensures exists k: nat :: k <= |names| && SettlesAfter(names, name, 2, k)
  {
    DeduplicatedShape(names, name, 2);
  }

  /** `app` and `app(2)` taken: a third `app` becomes `app(2)(3)`, not `app(3)`. */
  lemma CumulativeSuffixExample()
    ensures Deduplicated([], "app", 2) == "app"
    ensures Deduplicated(["app"], "app", 2) == "app(2)"
    ensures Deduplicated(["app", "app(2)"], "app", 2) == "app(2)(3)"
  {
    assert Suffix(2) == "(2)" && Suffix(3) == "(3)";
    assert Deduplicated(["app"], "app(2)", 3) == "app(2)";
    assert Deduplicated(["app", "app(2)"], "app(2)(3)", 4) == "app(2)(3)";
  }
}
