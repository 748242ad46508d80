/** Input validation (src/utils/validation.js): the master-password policy,
    the entry form check, and the e-mail, hex colour and backup-file format
    checks. Each regular expression of the source is written as a predicate
    of the same shape, and a lemma states what it accepts in plain terms.

    `isValidUrl` relies on the browser's URL constructor and is a parameter. */
module Validation {
  import opened Common
  import opened Entries

  // ---------------------------------------------------------------------
  // Master password policy

  const MsgLength := "Master password must be at least 8 characters long"
  const MsgUpper := "Master password must contain at least one uppercase letter"
  const MsgLower := "Master password must contain at least one lowercase letter"
  const MsgDigit := "Master password must contain at least one number"
  const MsgSpecial := "Master password must contain at least one special character"

  predicate IsSpecial(c: char) { !IsAlnum(c) }

  /** `/[A-Z]/.test(s)` */
  predicate HasUpper(s: string) { AnyChar(s, IsUpper) }
  /** `/[a-z]/.test(s)` */
  predicate HasLower(s: string) { AnyChar(s, IsLower) }
  /** `/\d/.test(s)` and `/[0-9]/.test(s)` */
  predicate HasDigit(s: string) { AnyChar(s, IsDigit) }
  /** `/[^A-Za-z0-9]/.test(s)` */
  predicate HasSpecial(s: string) { AnyChar(s, IsSpecial) }

  /** The policy a master password must meet. */
  predicate MeetsPolicy(p: string) {
    |p| >= 8 && HasUpper(p) && HasLower(p) && HasDigit(p) && HasSpecial(p)
  }

  /** The `{ isValid, error }` object; `error` is `null` when valid. */
  datatype PolicyResult = PolicyResult(isValid: bool, error: Option<string>)

  /** `validateMasterPassword`: the checks run in the order length,
      uppercase, lowercase, digit, special, and the first that fails names
      the error. A missing password fails the length check. */
  function ValidateMasterPassword(password: Option<string>): (r: PolicyResult)
    ensures r.isValid <==> password.Some? && MeetsPolicy(password.value)
    ensures r.isValid <==> r.error == None
    ensures r.error == Some(MsgLength) <==> password.None? || |password.value| < 8
    ensures r.error == Some(MsgUpper) <==>
      password.Some? && |password.value| >= 8 && !HasUpper(password.value)
    ensures r.error == Some(MsgLower) <==>
      password.Some? && |password.value| >= 8 && HasUpper(password.value)
      && !HasLower(password.value)
    ensures r.error == Some(MsgDigit) <==>
      password.Some? && |password.value| >= 8 && HasUpper(password.value)
      && HasLower(password.value) && !HasDigit(password.value)
    ensures r.error == Some(MsgSpecial) <==>
      password.Some? && |password.value| >= 8 && HasUpper(password.value)
      && HasLower(password.value) && HasDigit(password.value) && !HasSpecial(password.value)
  {
    if password.None? || |password.value| < 8 then PolicyResult(false, Some(MsgLength))
    else if !HasUpper(password.value) then PolicyResult(false, Some(MsgUpper))
    else if !HasLower(password.value) then PolicyResult(false, Some(MsgLower))
    else if !HasDigit(password.value) then PolicyResult(false, Some(MsgDigit))
    else if !HasSpecial(password.value) then PolicyResult(false, Some(MsgSpecial))
    else PolicyResult(true, None)
  }

  // ---------------------------------------------------------------------
  // Entry form validation

  /** Every character is whitespace (the empty string included). */
  predicate Blank(s: string) {
    forall i :: 0 <= i < |s| ==> IsJsWhitespace(s[i])
  }

  function TrimStart(s: string): string {
    if |s| > 0 && IsJsWhitespace(s[0]) then TrimStart(s[1..]) else s
  }

  function TrimEnd(s: string): string {
    if |s| > 0 && IsJsWhitespace(s[|s| - 1]) then TrimEnd(s[..|s| - 1]) else s
  }

  /** `String.prototype.trim`. */
  function Trim(s: string): string {
    TrimEnd(TrimStart(s))
  }

  lemma {:induction false} TrimStartEmptyIffBlank(s: string)
    ensures TrimStart(s) == "" <==> Blank(s)
    ensures TrimStart(s) != "" ==> !IsJsWhitespace(TrimStart(s)[0])
  {
    if |s| > 0 && IsJsWhitespace(s[0]) {
      TrimStartEmptyIffBlank(s[1..]);
      assert Blank(s[1..]) ==> Blank(s) by {
        if Blank(s[1..]) {
          forall i | 0 <= i < |s| ensures IsJsWhitespace(s[i]) {
            if i > 0 { assert s[i] == s[1..][i - 1]; }
          }
        }
      }
    }
  }

  lemma {:induction false} TrimEndEmptyIffEmpty(s: string)
    requires s != "" ==> !IsJsWhitespace(s[0])
    ensures TrimEnd(s) == "" <==> s == ""
  {
    if |s| > 0 && IsJsWhitespace(s[|s| - 1]) {
      assert |s| > 1;
      TrimEndEmptyIffEmpty(s[..|s| - 1]);
    }
  }

  /** `s.trim() === ''` holds exactly for blank strings. */
  lemma TrimEmptyIffBlank(s: string)
    ensures Trim(s) == "" <==> Blank(s)
  {
    TrimStartEmptyIffBlank(s);
    TrimEndEmptyIffEmpty(TrimStart(s));
  }

  /** `!value || value.trim() === ''` for an optional string field. */
  function Missing(v: Option<string>): (r: bool)
    ensures r <==> v.None? || Blank(v.value)
  {
    if v.Some? then TrimEmptyIffBlank(v.value); v.value == "" || Trim(v.value) == ""
    else true
  }

  /** The `{ isValid, errorFields }` object; `errorFields` maps a field name
      to its message. */
  datatype EntryCheck = EntryCheck(isValid: bool, errorFields: map<string, string>)

  /** `validatePasswordEntry`: title and password are required (not blank);
      a URL, when given, must satisfy `isValidUrl`. */
  function ValidatePasswordEntry(entry: Entry, isValidUrl: string -> bool): (r: EntryCheck)
    ensures "title" in r.errorFields <==> entry.title.None? || Blank(entry.title.value)
    ensures "url" in r.errorFields <==> Truthy(entry.url) && !isValidUrl(entry.url.value)
    ensures "password" in r.errorFields <==>
      entry.password.None? || Blank(entry.password.value)
    ensures r.errorFields.Keys <= {"title", "url", "password"}
    ensures r.isValid <==> r.errorFields == map[]
  {
    var titleErr: map<string, string> :=
      if Missing(entry.title) then map["title" := "Title is required"] else map[];
    var urlErr: map<string, string> :=
      if Truthy(entry.url) && !isValidUrl(entry.url.value)
      then titleErr["url" := "Please enter a valid URL"] else titleErr;
    var errorFields: map<string, string> :=
      if Missing(entry.password) then urlErr["password" := "Password is required"] else urlErr;
    EntryCheck(|errorFields.Keys| == 0, errorFields)
  }

  // ---------------------------------------------------------------------
  // E-mail: /^[^\s@]+@[^\s@]+\.[^\s@]+$/

  /** A non-empty run of `[^\s@]`. */
  predicate PlainRun(t: string) {
    |t| > 0 && forall i :: 0 <= i < |t| ==> t[i] != '@' && !IsJsWhitespace(t[i])
  }

  /** `isValidEmail`: the regular expression, with `a` the position of the
      `@` and `k` the position of the `.` the third run follows. */
  predicate IsValidEmail(s: string): (r: bool)
    ensures r ==> |s| >= 5 && s[0] != '@' && s[|s| - 1] != '@'
  {
    exists a, k | 0 < a < k < |s| :: EmailMatchAt(s, a, k)
  }

  /** The address shape in plain words: no whitespace, exactly one `@`,
      something before it, and after it a `.` with a character on each side. */
  ghost predicate EmailShape(s: string) {
    (forall i :: 0 <= i < |s| ==> !IsJsWhitespace(s[i]))
    && exists a :: EmailSplitAt(s, a)
  }

  /** `a` is the only `@` of `s`, with a character before it and a `.` after
      it that has a character on each side. */
  ghost predicate EmailSplitAt(s: string, a: int) {
    0 < a < |s| && s[a] == '@'
    && (forall j :: 0 <= j < |s| && s[j] == '@' ==> j == a)
    && (exists k :: a + 1 < k < |s| - 1 && s[k] == '.')
  }

  /** The regular expression matches at split points `a` and `k`. */
  predicate EmailMatchAt(s: string, a: int, k: int) {
    0 < a < k < |s| && a + 1 < k && k + 1 < |s| && s[a] == '@' && s[k] == '.'
    && PlainRun(s[..a]) && PlainRun(s[a + 1..k]) && PlainRun(s[k + 1..])
  }

  lemma EmailMatchGivesShape(s: string, a: int, k: int)
    requires EmailMatchAt(s, a, k)
    ensures EmailShape(s)
  {
    forall j | 0 <= j < |s| ensures !IsJsWhitespace(s[j]) && (s[j] == '@' ==> j == a) {
      if j < a { assert s[j] == s[..a][j]; }
      else if a < j < k { assert s[j] == s[a + 1..k][j - a - 1]; }
      else if j > k { assert s[j] == s[k + 1..][j - k - 1]; }
    }
    assert EmailSplitAt(s, a);
  }

  lemma EmailShapeGivesMatch(s: string, a: int)
    requires (forall i :: 0 <= i < |s| ==> !IsJsWhitespace(s[i])) && EmailSplitAt(s, a)
    ensures IsValidEmail(s)
  {
    var k :| a + 1 < k < |s| - 1 && s[k] == '.';
    assert PlainRun(s[..a]);
    assert PlainRun(s[a + 1..k]);
    assert PlainRun(s[k + 1..]);
    assert EmailMatchAt(s, a, k);
  }

  lemma EmailRegexMeansShape(s: string)
    ensures IsValidEmail(s) <==> EmailShape(s)
  {
    if IsValidEmail(s) {
      var a, k :| 0 < a < k < |s| && EmailMatchAt(s, a, k);
      EmailMatchGivesShape(s, a, k);
    }
    if EmailShape(s) {
      var a :| EmailSplitAt(s, a);
      EmailShapeGivesMatch(s, a);
    }
  }

  // ---------------------------------------------------------------------
  // Hex colour: /^#([0-9A-F]{3}){1,2}$/i

  predicate IsHexDigit(c: char) {
    IsDigit(c) || 'a' <= c <= 'f' || 'A' <= c <= 'F'
  }

  /** `isValidHexColor`: `#` and then one or two groups of three hex digits. */
  predicate IsValidHexColor(s: string) {
    (|s| == 4 || |s| == 7) && s[0] == '#' && forall i :: 1 <= i < |s| ==> IsHexDigit(s[i])
  }

  /** The `i` flag: the check does not depend on letter case. */
  lemma HexColorIgnoresCase(s: string)
    ensures IsValidHexColor(s) <==> IsValidHexColor(Lower(s))
  {
    forall i | 0 <= i < |s| ensures IsHexDigit(s[i]) <==> IsHexDigit(Lower(s)[i]) {
    }
  }

  /** Three hex digits. */
  predicate HexGroup(g: string) {
    |g| == 3 && IsHexDigit(g[0]) && IsHexDigit(g[1]) && IsHexDigit(g[2])
  }

  /** The regular expression's structure: `#` and one or two groups of three
      hex digits, and nothing else. */
  lemma HexColorIsGroups(s: string)
    ensures IsValidHexColor(s) <==>
      (|s| == 4 && s[0] == '#' && HexGroup(s[1..]))
      || (|s| == 7 && s[0] == '#' && HexGroup(s[1..4]) && HexGroup(s[4..]))
  {
    if |s| == 7 && s[0] == '#' && HexGroup(s[1..4]) && HexGroup(s[4..]) {
      forall i | 1 <= i < 7 ensures IsHexDigit(s[i]) {
        if i < 4 { assert s[i] == s[1..4][i - 1]; } else { assert s[i] == s[4..][i - 4]; }
      }
    }
    if |s| == 4 && s[0] == '#' && HexGroup(s[1..]) {
      forall i | 1 <= i < 4 ensures IsHexDigit(s[i]) {
        assert s[i] == s[1..][i - 1];
      }
    }
  }

  // ---------------------------------------------------------------------
  // Backup file

  /** The parsed backup object; `None` fields are missing keys. Values
      other than strings are not modelled. */
  datatype BackupData = BackupData(version: Option<string>, encrypted: Option<string>,
                                   salt: Option<string>)

  predicate AllDigits(t: string) {
    forall i :: 0 <= i < |t| ==> IsDigit(t[i])
  }

  /** `/^\d+\.\d+\.\d+$/`, with `i` and `j` the positions of the two dots. */
  predicate IsSemVer(v: string): (r: bool)
    ensures r ==> |v| >= 5 && IsDigit(v[0]) && IsDigit(v[|v| - 1])
  {
    exists i, j | 0 < i < j < |v| ::
      i + 1 < j && j + 1 < |v| && v[i] == '.' && v[j] == '.'
      && AllDigits(v[..i]) && AllDigits(v[i + 1..j]) && AllDigits(v[j + 1..])
  }

  /** `isValidBackupFile`; `None` stands for `null`, `undefined` or a
      value that is not an object. */
  function IsValidBackupFile(data: Option<BackupData>): (ok: bool)
    ensures ok ==> (data.Some? && Truthy(data.value.version)
                    && Truthy(data.value.encrypted) && Truthy(data.value.salt))
    ensures (data.Some? && Truthy(data.value.version) && Truthy(data.value.encrypted)
             && Truthy(data.value.salt)) ==> (ok <==> IsSemVer(data.value.version.value))
  {
    if data.None? then false
    else if !Truthy(data.value.version) || !Truthy(data.value.encrypted)
      || !Truthy(data.value.salt) then false
    else IsSemVer(data.value.version.value)
  }

  /** Any three non-empty digit strings joined by dots form a version. */
  lemma SemVerOfParts(major: string, minor: string, patch: string)
    requires |major| > 0 && |minor| > 0 && |patch| > 0
    requires AllDigits(major) && AllDigits(minor) && AllDigits(patch)
    ensures IsSemVer(major + "." + minor + "." + patch)
  {
    var v := major + "." + minor + "." + patch;
    var i, j := |major|, |major| + 1 + |minor|;
    assert v[..i] == major;
    assert v[i + 1..j] == minor;
    assert v[j + 1..] == patch;
    assert v[i] == '.' && v[j] == '.';
  }

  /** A version holds only digits and dots. */
  lemma SemVerCharset(v: string, m: int)
    requires IsSemVer(v) && 0 <= m < |v|
    ensures IsDigit(v[m]) || v[m] == '.'
  {
    var i, j :| 0 < i < j < |v| && i + 1 < j && j + 1 < |v| && v[i] == '.' && v[j] == '.'
      && AllDigits(v[..i]) && AllDigits(v[i + 1..j]) && AllDigits(v[j + 1..]);
    if m < i { assert v[m] == v[..i][m]; }
    else if i < m < j { assert v[m] == v[i + 1..j][m - i - 1]; }
    else if m > j { assert v[m] == v[j + 1..][m - j - 1]; }
  }
}
