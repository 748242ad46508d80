/** The list row (src/components/PasswordList/PasswordItem.jsx): the avatar
    colour chosen by a string hash with 32-bit shifts, the avatar initial,
    and the empty case of the domain shown under the title.

    The hash is computed on unbounded integers with JavaScript's `ToInt32`
    written out for the `<<` operator. The other operations of the loop are
    double-precision in JavaScript; `HashFitsDouble` shows they stay below
    2^53, where doubles are exact, for titles of up to 4,000,000 characters. */
module PasswordItem {
  import opened Common

  const Colors: seq<string> := [
    "#4285F4", "#34A853", "#FBBC05", "#EA4335",
    "#1877F2", "#E1306C", "#2867B2", "#1DA1F2",
    "#7289DA", "#FF9900", "#6441A4", "#DB4437"]

  const TwoTo31: int := 0x8000_0000
  const TwoTo32: int := 0x1_0000_0000

  function Abs(x: int): nat { if x < 0 then -x else x }

  /** ECMAScript `ToInt32` of an integral number: the value congruent to `x`
      modulo 2^32 in [-2^31, 2^31). */
  function ToInt32(x: int): (r: int)
    ensures -TwoTo31 <= r < TwoTo31
    ensures (x - r) % TwoTo32 == 0
    ensures -TwoTo31 <= x < TwoTo31 ==> r == x
  {
    (x + TwoTo31) % TwoTo32 - TwoTo31
  }

  /** `h << 5`: the left operand is converted to int32, and the shifted
      value wraps to int32 again. */
  function ShiftLeft5(h: int): (r: int)
    ensures -TwoTo31 <= r < TwoTo31
  {
    ToInt32(ToInt32(h) * 32)
  }

  /** One iteration: `hash = title.charCodeAt(i) + ((hash << 5) - hash)`. */
  function HashStep(h: int, c: char): int {
    c as int + (ShiftLeft5(h) - h)
  }

  /** The hash of a title: the loop as a left fold over its characters. */
  function TitleHash(title: string): int
    decreases |title|
  {
    if title == "" then 0 else HashStep(TitleHash(title[..|title| - 1]), title[|title| - 1])
  }

  /** Each character moves the hash by at most 2^31 + 0x110000. */
  lemma {:induction false} HashMagnitude(title: string)
    ensures Abs(TitleHash(title)) <= |title| * (TwoTo31 + 0x11_0000)
  {
    if title != "" {
      var prefix := title[..|title| - 1];
      HashMagnitude(prefix);
      assert |prefix| * (TwoTo31 + 0x11_0000) + (TwoTo31 + 0x11_0000)
             == |title| * (TwoTo31 + 0x11_0000);
    }
  }

  /** For titles of up to 4,000,000 characters every value of the loop is an
      integer below 2^53 in magnitude, so the double arithmetic is exact. */
  lemma HashFitsDouble(title: string)
    requires |title| <= 4_000_000
    ensures Abs(TitleHash(title)) < 0x20_0000_0000_0000
  {
    HashMagnitude(title);
    assert |title| * (TwoTo31 + 0x11_0000) <= 4_000_000 * (TwoTo31 + 0x11_0000);
  }

  /** `Math.abs(hash) % colors.length`. */
  function AvatarIndex(title: string): (k: nat)
    ensures k < |Colors|
  {
    Abs(TitleHash(title)) % |Colors|
  }

  /** `getAvatarColor`: the hash loop, then a table lookup that is always in
      range; equal titles get equal colours. */
  method GetAvatarColor(title: string) returns (color: string)
    ensures color == Colors[AvatarIndex(title)]
    ensures color in Colors
  {
    var hash := 0;
    var i := 0;
    while i < |title|
      invariant 0 <= i <= |title|
      invariant hash == TitleHash(title[..i])
    {
      assert title[..i + 1][..i] == title[..i];
      hash := title[i] as int + (ShiftLeft5(hash) - hash);
      i := i + 1;
    }
    assert title[..|title|] == title;
    color := Colors[Abs(hash) % |Colors|];
  }

  /** An empty title hashes to 0 and gets the first colour. */
  lemma EmptyTitleColor()
    ensures TitleHash("") == 0 && Colors[AvatarIndex("")] == "#4285F4"
  {
  }

  /** `getInitial`: the first character, upper-cased; `""` for an empty title. */
  function GetInitial(title: string): (r: string)
    ensures |r| <= 1 && (r == "" <==> title == "")
    ensures r != "" ==> !IsLower(r[0])
    ensures title != "" ==> Lower(r) == Lower(title[..1])
  {
    if title == "" then "" else [UpperChar(title[0])]
  }

  /** The initial does not depend on the case of the title. */
  lemma InitialIgnoresCase(title: string)
    ensures GetInitial(Lower(title)) == GetInitial(title)
  {
  }

  /** `getDomain`: no domain for a missing or empty URL; otherwise the
      hostname that URL parsing yields (`hostnameOf`, not modelled). */
  function GetDomain(url: Option<string>, hostnameOf: string -> string): (r: Option<string>)
    ensures r.None? <==> !Truthy(url)
    ensures r.Some? ==> r.value == hostnameOf(url.value)
  {
    if !Truthy(url) then None else Some(hostnameOf(url.value))
  }
}
