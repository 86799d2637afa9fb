/** The UUID checks the validators and the row schemas apply, and how the
    database compares UUIDs.

    A UUID in text form (section 3 of RFC 4122) is 32 hexadecimal digits in
    groups of 8-4-4-4-12 separated by hyphens; hex digits may be of either case.
    A version-4 UUID (section 4.4 of RFC 4122) has the version digit `4` at the
    start of the third group and one of `8`, `9`, `a`, `b` at the start of the
    fourth group (the variant bits `10`).

    The id columns are Postgres `uuid` columns: they compare UUID values, not
    texts, so two texts that differ only in the case of their hex digits name
    the same row, and the database stores and returns the lower-case form. */
module Uuid {

  predicate IsHexDigit(c: char)
  {
    '0' <= c <= '9' || 'a' <= c <= 'f' || 'A' <= c <= 'F'
  }

  /** The value of a hex digit. */
  function HexValue(c: char): (v: nat)
    requires IsHexDigit(c)
    ensures v < 16
  {
    if '0' <= c <= '9' then c as int - '0' as int
    else if 'a' <= c <= 'f' then c as int - 'a' as int + 10
    else c as int - 'A' as int + 10
  }

  /** The positions of the four hyphens in the 36-character text form. */
  predicate IsHyphenPosition(i: int)
  {
    i == 8 || i == 13 || i == 18 || i == 23
  }

  /** The text form of some UUID, of any version: JSON schema `format: "uuid"`
      on the row models and the resolvers' `ParseUUIDPipe`. */
  predicate IsUuid(s: string): (ok: bool)
    ensures ok ==> |s| == 36 && forall i :: 0 <= i < |s| ==> (s[i] == '-' <==> IsHyphenPosition(i))
  {
    && |s| == 36
    && forall i :: 0 <= i < |s| ==> if IsHyphenPosition(i) then s[i] == '-' else IsHexDigit(s[i])
  }

  /** `IsUUID('4')` of the input validators: the version nibble is 4 and the
      top two bits of the variant nibble are `10`. */
  predicate IsUuidV4(s: string): (ok: bool)
    ensures ok <==> IsUuid(s) && HexValue(s[14]) == 4 && HexValue(s[19]) / 4 == 2
  {
    && IsUuid(s)
    && s[14] == '4'
    && s[19] in {'8', '9', 'a', 'b', 'A', 'B'}
  }

  /** ASCII lower case; every other character is kept. */
  function Lower(c: char): char
  {
    if 'A' <= c <= 'Z' then (c as int - 'A' as int + 'a' as int) as char else c
  }

  /** Two texts name the same UUID value: equal up to the case of their letters. */
  predicate SameUuid(s: string, t: string)
  {
    |s| == |t| && forall i :: 0 <= i < |s| ==> Lower(s[i]) == Lower(t[i])
  }

  /** The text Postgres stores and prints for a `uuid`: the lower-case form. */
  function Canonical(s: string): (t: string)
    ensures |t| == |s|
    ensures forall i :: 0 <= i < |s| ==> t[i] == Lower(s[i])
  {
    if |s| == 0 then "" else [Lower(s[0])] + Canonical(s[1..])
  }

  /** A text already in the stored form. */
  predicate IsCanonical(s: string)
  {
    forall i :: 0 <= i < |s| ==> !('A' <= s[i] <= 'Z')
  }

  /** The stored form is canonical, names the same UUID as the text it came
      from, and keeps the UUID layout and version. */
  lemma CanonicalForm(s: string)
    ensures IsCanonical(Canonical(s)) && SameUuid(s, Canonical(s))
    ensures IsCanonical(s) <==> Canonical(s) == s
    ensures IsUuid(s) ==> IsUuid(Canonical(s))
    ensures IsUuidV4(s) ==> IsUuidV4(Canonical(s))
  {
    if !IsCanonical(s) {
      var i :| 0 <= i < |s| && 'A' <= s[i] <= 'Z';
      assert Canonical(s)[i] != s[i];
    }
  }

  /** Comparing the stored forms is comparing the UUID values. */
  lemma SameUuidExactly(s: string, t: string)
    ensures SameUuid(s, t) <==> Canonical(s) == Canonical(t)
  {
    if Canonical(s) == Canonical(t) {
      assert forall i :: 0 <= i < |s| ==> Lower(s[i]) == Canonical(s)[i] == Canonical(t)[i] == Lower(t[i]);
    }
  }
}
