/** Password utilities (src/utils/passwordUtils.js): the 0-100 strength
    score with its sequential- and repeated-character penalties, the label
    thresholds, and the random password generator with its random draws
    supplied as input.

    Two JavaScript details are modelled exactly:
    - `isNaN(c)` of a one-character string is false for digits AND for
      whitespace (`Number(" ")` is 0), so the "alphabetic" branch of the
      sequence check sees every other character;
    - `String.prototype.substring` clamps its indices.
    The uniqueness ratio `Math.floor(unique / length * 30)` is taken as exact
    integer division. */
module PasswordUtils {
  import opened Common
  import Validation

  // ---------------------------------------------------------------------
  // Three-character windows

  /** Number of windows `i` with `i < length - 2`. */
  function Windows(n: nat): nat { if n >= 2 then n - 2 else 0 }

  /** `isNaN(c)` for a string of the one character `c`. */
  predicate IsNaNChar(c: char) { !IsDigit(c) && !IsJsWhitespace(c) }

  /** `parseInt(c)` for one character: a digit's value, otherwise NaN (`None`). */
  function ParseIntChar(c: char): Option<int> {
    if IsDigit(c) then Some(DigitValue(c)) else None
  }

  /** `x === y + k` on numbers that may be NaN. */
  predicate NumEqPlus(x: Option<int>, y: Option<int>, k: int) {
    x.Some? && y.Some? && x.value == y.value + k
  }

  /** The alphabetic branch at window `i` of the lower-cased password. */
  predicate AlphaRunAt(low: string, i: nat)
    requires i + 2 < |low|
  {
    IsNaNChar(low[i]) && IsNaNChar(low[i + 1]) && IsNaNChar(low[i + 2])
    && low[i + 1] as int == low[i] as int + 1 && low[i + 2] as int == low[i] as int + 2
  }

  /** The numeric branch at window `i` of the lower-cased password. */
  predicate NumericRunAt(low: string, i: nat)
    requires i + 2 < |low|
  {
    !IsNaNChar(low[i]) && !IsNaNChar(low[i + 1]) && !IsNaNChar(low[i + 2])
    && NumEqPlus(ParseIntChar(low[i + 1]), ParseIntChar(low[i]), 1)
    && NumEqPlus(ParseIntChar(low[i + 2]), ParseIntChar(low[i]), 2)
  }

  /** What one loop iteration of `countSequentialChars` adds. */
  function SequentialAt(low: string, i: nat): nat
    requires i + 2 < |low|
  {
    (if AlphaRunAt(low, i) then 1 else 0) + (if NumericRunAt(low, i) then 1 else 0)
  }

  /** The count after the first `n` iterations. */
  function SequentialUpTo(low: string, n: nat): nat
    requires n <= Windows(|low|)
  {
    if n == 0 then 0 else SequentialUpTo(low, n - 1) + SequentialAt(low, n - 1)
  }

  /** The value `countSequentialChars(password)` returns. */
  function SequentialCount(password: string): nat {
    SequentialUpTo(Lower(password), Windows(|password|))
  }

  /** The numeric branch fires exactly on three ascending digits. */
  lemma NumericRunMeansDigits(low: string, i: nat)
    requires i + 2 < |low|
    ensures NumericRunAt(low, i) <==>
      IsDigit(low[i]) && IsDigit(low[i + 1]) && IsDigit(low[i + 2])
      && low[i + 1] as int == low[i] as int + 1 && low[i + 2] as int == low[i] as int + 2
  {
  }

  /** A window is scored by at most one of the two branches. */
  lemma WindowScoredOnce(low: string, i: nat)
    requires i + 2 < |low|
    ensures SequentialAt(low, i) <= 1
    ensures !(AlphaRunAt(low, i) && NumericRunAt(low, i))
  {
  }

  lemma {:induction false} SequentialUpToBound(low: string, n: nat)
    requires n <= Windows(|low|)
    ensures SequentialUpTo(low, n) <= n
  {
    if n > 0 {
      SequentialUpToBound(low, n - 1);
      WindowScoredOnce(low, n - 1);
    }
  }

  /** `countSequentialChars`: scans the lower-cased password. */
  method CountSequentialChars(password: string) returns (count: nat)
    ensures count == SequentialCount(password)
    ensures count <= Windows(|password|)
  {
    count := 0;
    var passwordLower := Lower(password);
    var i := 0;
    while i < |passwordLower| - 2
      invariant 0 <= i <= Windows(|passwordLower|)
      invariant count == SequentialUpTo(passwordLower, i)
    {
      if IsNaNChar(passwordLower[i]) && IsNaNChar(passwordLower[i + 1])
         && IsNaNChar(passwordLower[i + 2]) {
        if passwordLower[i + 1] as int == passwordLower[i] as int + 1
           && passwordLower[i + 2] as int == passwordLower[i] as int + 2 {
          count := count + 1;
        }
      }
      if !IsNaNChar(passwordLower[i]) && !IsNaNChar(passwordLower[i + 1])
         && !IsNaNChar(passwordLower[i + 2]) {
        if NumEqPlus(ParseIntChar(passwordLower[i + 1]), ParseIntChar(passwordLower[i]), 1)
           && NumEqPlus(ParseIntChar(passwordLower[i + 2]), ParseIntChar(passwordLower[i]), 2) {
          count := count + 1;
        }
      }
      i := i + 1;
    }
    SequentialUpToBound(passwordLower, i);
  }

  /** Window `i` holds three equal characters. */
  predicate TripleAt(s: string, i: nat)
    requires i + 2 < |s|
  {
    s[i] == s[i + 1] && s[i] == s[i + 2]
  }

  function RepeatedUpTo(s: string, n: nat): nat
    requires n <= Windows(|s|)
  {
    if n == 0 then 0 else RepeatedUpTo(s, n - 1) + (if TripleAt(s, n - 1) then 1 else 0)
  }

  /** The value `countRepeatedChars(password)` returns: overlapping windows
      of three equal characters. */
  function RepeatedCount(password: string): nat {
    RepeatedUpTo(password, Windows(|password|))
  }

  lemma {:induction false} RepeatedUpToBound(s: string, n: nat)
    requires n <= Windows(|s|)
    ensures RepeatedUpTo(s, n) <= n
  {
    if n > 0 { RepeatedUpToBound(s, n - 1); }
  }

  /** `countRepeatedChars`. */
  method CountRepeatedChars(password: string) returns (count: nat)
    ensures count == RepeatedCount(password)
    ensures count <= Windows(|password|)
  {
    count := 0;
    var i := 0;
    while i < |password| - 2
      invariant 0 <= i <= Windows(|password|)
      invariant count == RepeatedUpTo(password, i)
    {
      if password[i] == password[i + 1] && password[i] == password[i + 2] {
        count := count + 1;
      }
      i := i + 1;
    }
    RepeatedUpToBound(password, i);
  }

  /** A run of `n` equal characters has `n - 2` repeated windows
      (so "aaaa" scores 2). */
  lemma {:induction false} RepeatedOfRun(c: char, n: nat)
    ensures RepeatedCount(seq(n, _ => c)) == Windows(n)
  {
    var s := seq(n, _ => c);
    var k := 0;
    while k < Windows(n)
      invariant 0 <= k <= Windows(n)
      invariant RepeatedUpTo(s, k) == k
    {
      assert TripleAt(s, k);
      k := k + 1;
    }
  }

  // ---------------------------------------------------------------------
  // Strength score

  /** `new Set(password).size`. */
  function DistinctChars(p: string): nat {
    |set i | 0 <= i < |p| :: p[i]|
  }

  lemma {:induction false} CharsOfPrefix(p: string, k: nat)
    requires k <= |p|
    ensures |set i | 0 <= i < k :: p[i]| <= k
    ensures (forall i, j :: 0 <= i < j < |p| ==> p[i] != p[j]) ==>
      |set i | 0 <= i < k :: p[i]| == k
  {
    if k > 0 {
      CharsOfPrefix(p, k - 1);
      var before := set i | 0 <= i < k - 1 :: p[i];
      assert (set i | 0 <= i < k :: p[i]) == before + {p[k - 1]};
      if forall i, j :: 0 <= i < j < |p| ==> p[i] != p[j] {
        assert p[k - 1] !in before;
      }
    }
  }

  /** There are never more distinct characters than characters, and
      exactly as many when no character repeats. */
  lemma DistinctCharsBounds(p: string)
    ensures DistinctChars(p) <= |p|
    ensures (forall i, j :: 0 <= i < j < |p| ==> p[i] != p[j]) ==> DistinctChars(p) == |p|
  {
    CharsOfPrefix(p, |p|);
  }

  /** Length part (max 30). */
  function LengthScore(n: nat): (r: int)
    ensures 0 <= r <= 30
  {
    Min(30, n * 2)
  }

  /** Character variety part: 10 for each class present (max 40). */
  function VarietyScore(p: string): (r: int)
    ensures 0 <= r <= 40 && r % 10 == 0
    ensures r == 40 <==> Validation.HasLower(p) && Validation.HasUpper(p)
                         && Validation.HasDigit(p) && Validation.HasSpecial(p)
  {
    (if Validation.HasLower(p) then 10 else 0) + (if Validation.HasUpper(p) then 10 else 0)
    + (if Validation.HasDigit(p) then 10 else 0) + (if Validation.HasSpecial(p) then 10 else 0)
  }

  /** Uniqueness part: `min(30, floor(unique / length * 30))`. */
  function UniquenessScore(p: string): (r: int)
    requires |p| > 0
    ensures 0 <= r <= 30
    ensures (forall i, j :: 0 <= i < j < |p| ==> p[i] != p[j]) ==> r == 30
  {
    DistinctCharsBounds(p);
    ScaledRatio(DistinctChars(p), |p|);
    Min(30, DistinctChars(p) * 30 / |p|)
  }

  /** `floor(u / n * 30)` for `u <= n` lies in [0, 30], and is 30 at `u == n`. */
  lemma ScaledRatio(u: nat, n: nat)
    requires 0 < n && u <= n
    ensures 0 <= u * 30 / n <= 30
    ensures u == n ==> u * 30 / n == 30
  {
    assert u * 30 <= n * 30;
    assert n * 30 / n == 30;
  }

  /** `min(20, 2 * count)`, the cap on each penalty. */
  function Penalty(count: nat): (r: int)
    ensures 0 <= r <= 20
    ensures count <= 10 ==> r == 2 * count
  {
    Min(20, count * 2)
  }

  /** The score before clamping to [0, 100]. It never exceeds 100, so only
      the clamp at 0 can bind. */
  function RawScore(p: string): (r: int)
    requires |p| > 0
    ensures -40 <= r <= 100
  {
    LengthScore(|p|) + VarietyScore(p) + UniquenessScore(p)
    - Penalty(SequentialCount(p)) - Penalty(RepeatedCount(p))
  }

  /** `calculatePasswordStrength`: the score is accumulated part by part
      and clamped to [0, 100]; an empty password scores 0. */
  method CalculatePasswordStrength(password: string) returns (strength: int)
    ensures 0 <= strength <= 100
    ensures password == "" ==> strength == 0
    ensures password != "" ==> strength == Max(0, Min(100, RawScore(password)))
  {
    if password == "" {
      return 0;
    }
    var score := 0;
    var length := |password|;
    score := score + Min(30, length * 2);
    score := score + (if Validation.HasLower(password) then 10 else 0);
    score := score + (if Validation.HasUpper(password) then 10 else 0);
    score := score + (if Validation.HasDigit(password) then 10 else 0);
    score := score + (if Validation.HasSpecial(password) then 10 else 0);
    var uniqueChars := DistinctChars(password);
    DistinctCharsBounds(password);
    score := score + Min(30, uniqueChars * 30 / length);
    var sequential := CountSequentialChars(password);
    score := score - Min(20, sequential * 2);
    var repeated := CountRepeatedChars(password);
    score := score - Min(20, repeated * 2);
    strength := Max(0, Min(100, score));
  }

  /** The classification `getPasswordStrengthLabel` returns. */
  datatype StrengthLabel = StrengthLabel(text: string, color: string)

  /** The five classifications, weakest first. */
  const LabelTable := [StrengthLabel("Very Weak", "red"), StrengthLabel("Weak", "orange"),
                       StrengthLabel("Medium", "yellow"), StrengthLabel("Strong", "light-green"),
                       StrengthLabel("Very Strong", "green")]

  /** The band of a score: one per 20 points, negative scores in the lowest
      and everything from 80 in the highest. */
  function ScoreBand(score: int): (k: nat)
    ensures k < |LabelTable|
  {
    Min(4, Max(0, score) / 20)
  }

  /** The position of a classification in the table, weakest first. */
  function Rank(l: StrengthLabel): nat {
    if l == LabelTable[0] then 0 else if l == LabelTable[1] then 1
    else if l == LabelTable[2] then 2 else if l == LabelTable[3] then 3 else 4
  }

  /** `getPasswordStrengthLabel`: thresholds 20, 40, 60 and 80. */
  function GetPasswordStrengthLabel(score: int): (r: StrengthLabel)
    ensures r == LabelTable[ScoreBand(score)]
  {
    if score < 20 then StrengthLabel("Very Weak", "red")
    else if score < 40 then StrengthLabel("Weak", "orange")
    else if score < 60 then StrengthLabel("Medium", "yellow")
    else if score < 80 then StrengthLabel("Strong", "light-green")
    else StrengthLabel("Very Strong", "green")
  }

  /** A higher score never gets a weaker classification. */
  lemma LabelMonotone(a: int, b: int)
    requires a <= b
    ensures Rank(GetPasswordStrengthLabel(a)) <= Rank(GetPasswordStrengthLabel(b))
    ensures Rank(GetPasswordStrengthLabel(a)) == ScoreBand(a)
  {
  }

  const UppercaseChars := "ABCDEFGHIJKLMNOPQRSTUVWXYZ"
  const LowercaseChars := "abcdefghijklmnopqrstuvwxyz"
  const NumberChars := "0123456789"
  const SymbolChars := "!@#$%^&*()_+-=[]{}|;:,.<>?"

  /** The selected character sets, in the order the source lists them. */
  function SelectedSets(upper: bool, lower: bool, numbers: bool, symbols: bool): seq<string> {
    (if upper then [UppercaseChars] else []) + (if lower then [LowercaseChars] else [])
    + (if numbers then [NumberChars] else []) + (if symbols then [SymbolChars] else [])
  }

  /** The character pool: the selected sets concatenated, lowercase when
      nothing is selected. */
  function CharPool(upper: bool, lower: bool, numbers: bool, symbols: bool): (pool: string)
    ensures |pool| > 0
    ensures forall c :: c in pool <==>
      (upper && c in UppercaseChars) || (lower && c in LowercaseChars)
      || (numbers && c in NumberChars) || (symbols && c in SymbolChars)
      || (!upper && !lower && !numbers && !symbols && c in LowercaseChars)
  {
    var pool := (if upper then UppercaseChars else "") + (if lower then LowercaseChars else "")
                + (if numbers then NumberChars else "") + (if symbols then SymbolChars else "");
    if pool == "" then LowercaseChars else pool
  }

  /** `p.substring(0, pos) + c + p.substring(pos + 1)`, with substring's
      clamping of indices past the end. */
  function ReplaceAt(p: string, pos: nat, c: char): (r: string)
    ensures pos < |p| ==> r == p[pos := c]
    ensures p == "" ==> r == [c]
  {
    p[..Min(pos, |p|)] + [c] + (if pos + 1 <= |p| then p[pos + 1..] else "")
  }

  /** Every character of a selected set is in the pool. */
  lemma SelectedSetsInPool(upper: bool, lower: bool, numbers: bool, symbols: bool)
    ensures forall set_ :: set_ in SelectedSets(upper, lower, numbers, symbols) ==>
      forall c :: c in set_ ==> c in CharPool(upper, lower, numbers, symbols)
  {
  }

  /** The first loop of `generatePassword`: one pool character per draw. */
  method DrawFromPool(pool: string, picks: seq<nat>) returns (password: string)
    requires forall i :: 0 <= i < |picks| ==> picks[i] < |pool|
    ensures |password| == |picks|
    ensures forall i :: 0 <= i < |picks| ==> password[i] == pool[picks[i]]
  {
    password := "";
    var i := 0;
    while i < |picks|
      invariant 0 <= i <= |picks|
      invariant |password| == i
      invariant forall j :: 0 <= j < i ==> password[j] == pool[picks[j]]
    {
      password := password + [pool[picks[i]]];
      i := i + 1;
    }
  }

  /** The `ensureInclusion.forEach` loop: character `inclusion[k]` of the
      `k`-th selected set overwrites position `positions[k]`. */
  method OverwriteWithInclusions(drawn: string, pool: string, sets: seq<string>,
                                 inclusion: seq<nat>, positions: seq<nat>)
    returns (password: string)
    requires forall j :: 0 <= j < |drawn| ==> drawn[j] in pool
    requires forall set_ :: set_ in sets ==> forall c :: c in set_ ==> c in pool
    requires |inclusion| == |positions| == |sets|
    requires forall k :: 0 <= k < |sets| ==> inclusion[k] < |sets[k]|
    requires forall k :: 0 <= k < |positions| ==> positions[k] < Max(1, |drawn|)
    ensures |password| == if |drawn| > 0 then |drawn| else if |sets| > 0 then 1 else 0
    ensures forall j :: 0 <= j < |password| ==> password[j] in pool
    ensures forall j :: (0 <= j < |drawn| && (forall k :: 0 <= k < |positions| ==> positions[k] != j))
                        ==> password[j] == drawn[j]
  {
    password := drawn;
    var k := 0;
    while k < |sets|
      invariant 0 <= k <= |sets|
      invariant |password| == if |drawn| > 0 then |drawn| else if k > 0 then 1 else 0
      invariant forall j :: 0 <= j < |password| ==> password[j] in pool
      invariant forall j :: (0 <= j < |drawn| && (forall m :: 0 <= m < k ==> positions[m] != j))
                            ==> password[j] == drawn[j]
    {
      var c := sets[k][inclusion[k]];
      assert sets[k] in sets;
      password := ReplaceAt(password, positions[k], c);
      k := k + 1;
    }
  }

  /** `generatePassword` with its random draws as input: `picks[i]` is the
      pool index drawn in iteration `i`, `inclusion[k]` the index drawn from
      the `k`-th selected set, `positions[k]` the position it replaces.
      `Math.floor(Math.random() * n)` lies in [0, n) for n > 0 and is 0 for
      n = 0, which the bounds on the draws state. A length of 0 or less
      still yields one character when a set is selected. */
  method GeneratePassword(length: int, upper: bool, lower: bool, numbers: bool, symbols: bool,
                          picks: seq<nat>, inclusion: seq<nat>, positions: seq<nat>)
    returns (password: string)
    requires |picks| == Max(0, length)
    requires forall i :: 0 <= i < |picks| ==> picks[i] < |CharPool(upper, lower, numbers, symbols)|
    requires |inclusion| == |positions| == |SelectedSets(upper, lower, numbers, symbols)|
    requires forall k :: 0 <= k < |inclusion| ==>
      inclusion[k] < |SelectedSets(upper, lower, numbers, symbols)[k]|
    requires forall k :: 0 <= k < |positions| ==> positions[k] < Max(1, length)
    ensures |password| == if length > 0 then length else if |inclusion| > 0 then 1 else 0
    ensures forall i :: 0 <= i < |password| ==> password[i] in CharPool(upper, lower, numbers, symbols)
    ensures forall i :: (0 <= i < length && (forall k :: 0 <= k < |positions| ==> positions[k] != i))
                        ==> password[i] == CharPool(upper, lower, numbers, symbols)[picks[i]]
  {
    var charPool := CharPool(upper, lower, numbers, symbols);
    var drawn := DrawFromPool(charPool, picks);
    SelectedSetsInPool(upper, lower, numbers, symbols);
    password := OverwriteWithInclusions(drawn, charPool, SelectedSets(upper, lower, numbers, symbols),
                                        inclusion, positions);
  }
}
