/** The password generator screen
    (src/components/PasswordGenerator/PasswordGenerator.jsx): its own
    seven-criteria strength meter, the label and colour it shows, and its
    generator, with the random draws supplied as input.

    `Math.floor(score / 7 * 100)` is taken as exact integer division
    `score * 100 / 7`. */
module PasswordGenerator {
  import opened Common
  import Validation
  import PasswordUtils

  /** The number of satisfied criteria among: length at least 8, 12 and 16,
      an uppercase letter, a lowercase letter, a digit, another character. */
  function CriteriaMet(p: string): (n: nat)
    ensures n <= 7
  {
    (if |p| >= 8 then 1 else 0) + (if |p| >= 12 then 1 else 0) + (if |p| >= 16 then 1 else 0)
    + (if Validation.HasUpper(p) then 1 else 0) + (if Validation.HasLower(p) then 1 else 0)
    + (if Validation.HasDigit(p) then 1 else 0) + (if Validation.HasSpecial(p) then 1 else 0)
  }

  /** All seven criteria hold. */
  predicate AllCriteria(p: string) {
    |p| >= 16 && Validation.HasUpper(p) && Validation.HasLower(p)
    && Validation.HasDigit(p) && Validation.HasSpecial(p)
  }

  /** Normalising a criteria count to 0..100 reaches 100 only at 7. */
  lemma {:induction false} NormalizedScore(score: nat)
    requires score <= 7
    ensures 0 <= score * 100 / 7 <= 100
    ensures score * 100 / 7 == 100 <==> score == 7
  {
    if score == 7 {
    } else {
      assert score * 100 <= 600;
    }
  }

  /** The strength effect: `score` counts the criteria step by step and is
      normalised to 0..100; the empty password has strength 0. */
  method Strength(password: string) returns (strength: int)
    ensures 0 <= strength <= 100
    ensures password == "" ==> strength == 0
    ensures strength == 100 <==> AllCriteria(password)
    ensures password != "" ==> strength == CriteriaMet(password) * 100 / 7
  {
    if password == "" {
      return 0;
    }
    var score := 0;
    if |password| >= 8 { score := score + 1; }
    if |password| >= 12 { score := score + 1; }
    if |password| >= 16 { score := score + 1; }
    if Validation.HasUpper(password) { score := score + 1; }
    if Validation.HasLower(password) { score := score + 1; }
    if Validation.HasDigit(password) { score := score + 1; }
    if Validation.HasSpecial(password) { score := score + 1; }
    assert score == CriteriaMet(password);
    NormalizedScore(score);
    strength := Min(100, score * 100 / 7);
  }

  /** The four strength bands, weakest first: the strength in quarters of
      100, clamped to 0..3. */
  function Band(strength: int): (b: nat)
    ensures b <= 3
  {
    Min(3, Max(0, strength) / 25)
  }

  const Labels := ["Weak", "Fair", "Good", "Strong"]
  const Colors := ["#ff4d4d", "#ffaa00", "#ffdd00", "#00cc44"]

  /** `getStrengthLabel`: thresholds 25, 50 and 75. */
  function GetStrengthLabel(strength: int): (l: string)
    ensures l == Labels[Band(strength)]
  {
    if strength < 25 then "Weak"
    else if strength < 50 then "Fair"
    else if strength < 75 then "Good"
    else "Strong"
  }

  /** `getStrengthColor`: the same thresholds. */
  function GetStrengthColor(strength: int): (c: string)
    ensures c == Colors[Band(strength)]
  {
    if strength < 25 then "#ff4d4d"
    else if strength < 50 then "#ffaa00"
    else if strength < 75 then "#ffdd00"
    else "#00cc44"
  }

  /** The colour that goes with each label. */
  function ColorOfLabel(name: string): string {
    if name == "Weak" then "#ff4d4d"
    else if name == "Fair" then "#ffaa00"
    else if name == "Good" then "#ffdd00"
    else "#00cc44"
  }

  /** Label and colour switch at the same thresholds, so they always agree. */
  lemma LabelAndColorAgree(strength: int)
    ensures GetStrengthColor(strength) == ColorOfLabel(GetStrengthLabel(strength))
  {
  }

  /** The generator's options. */
  datatype Config = Config(length: int, includeUppercase: bool, includeLowercase: bool,
                           includeNumbers: bool, includeSymbols: bool)

  const Lowercase := "abcdefghijklmnopqrstuvwxyz"
  const Uppercase := "ABCDEFGHIJKLMNOPQRSTUVWXYZ"
  const Digits := "0123456789"
  const Symbols := "!@#$%^&*()-_=+[]{}|;:,.<>?"

  /** The charset: lowercase, uppercase, digits, symbols, each when selected. */
  function Charset(config: Config): (charset: string)
    ensures charset == "" <==>
      !config.includeLowercase && !config.includeUppercase
      && !config.includeNumbers && !config.includeSymbols
    ensures forall c :: c in charset <==>
      (config.includeLowercase && c in Lowercase) || (config.includeUppercase && c in Uppercase)
      || (config.includeNumbers && c in Digits) || (config.includeSymbols && c in Symbols)
  {
    (if config.includeLowercase then Lowercase else "")
    + (if config.includeUppercase then Uppercase else "")
    + (if config.includeNumbers then Digits else "")
    + (if config.includeSymbols then Symbols else "")
  }

  /** `generatePassword` with its draws as input (`picks[i]` is the charset
      index drawn in iteration `i`): no charset gives `''`; otherwise the
      password has `length` characters, each from the charset. */
  method GeneratePassword(config: Config, picks: seq<nat>) returns (password: string)
    requires Charset(config) != "" ==> |picks| == Max(0, config.length)
    requires forall i :: 0 <= i < |picks| ==> picks[i] < |Charset(config)|
    ensures Charset(config) == "" ==> password == ""
    ensures Charset(config) != "" ==> |password| == Max(0, config.length)
    ensures Charset(config) != "" ==>
      forall i :: 0 <= i < |password| ==> password[i] == Charset(config)[picks[i]]
    ensures forall i :: 0 <= i < |password| ==> password[i] in Charset(config)
  {
    var charset := Charset(config);
    if charset == "" {
      return "";
    }
    password := PasswordUtils.DrawFromPool(charset, picks);
  }
}
