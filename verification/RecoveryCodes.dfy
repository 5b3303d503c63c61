/** Recovery codes: printing, normalising and hashing (backend/src/utils/totp.ts). */
module RecoveryCodes {
  import opened Prelude

  /** SHA-256 of a text, assumed collision free: the digest determines the text. */
  datatype Digest = Sha256(text: string)

  newtype Nibble = n: int | 0 <= n < 16

  const UPPER_HEX := "0123456789ABCDEF"

  predicate IsSeparator(c: char) { IsSpace(c) || c == '-' }

  function ToUpper(c: char): char {
    if 'a' <= c <= 'z' then c - 'a' + 'A' else c
  }

  /** Removes dashes and white space, upper-cases the rest. */
  function Normalize(code: string): string {
    if code == "" then ""
    else if IsSeparator(code[0]) then Normalize(code[1..])
    else [ToUpper(code[0])] + Normalize(code[1..])
  }

  function HashCode(code: string): Digest { Sha256(Normalize(code)) }

  function Hex(raw: seq<Nibble>): (s: string)
    ensures |s| == |raw|
    ensures forall i :: 0 <= i < |s| ==> s[i] == UPPER_HEX[raw[i] as int]
    ensures IsUpperHex(s)
  {
    if raw == [] then "" else [UPPER_HEX[raw[0] as int]] + Hex(raw[1..])
  }

  /** Groups of five characters joined with dashes; the last group may be shorter. */
  function Dashed(s: string): string {
    if |s| <= 5 then s else s[..5] + "-" + Dashed(s[5..])
  }

  /** One printed recovery code, from the ten random bytes given as twenty half-bytes. */
  function Print(raw: seq<Nibble>): string
    requires |raw| == 20
  {
    Dashed(Hex(raw))
  }

  /**
   * How a user may type the characters `plain`: in order, each in either case, with any
   * dashes and white space in between.
   */
  predicate TypedAs(plain: string, typed: string) {
    if typed == "" then plain == ""
    else if IsSeparator(typed[0]) then TypedAs(plain, typed[1..])
    else plain != "" && ToUpper(typed[0]) == ToUpper(plain[0]) && TypedAs(plain[1..], typed[1..])
  }

  predicate IsHexDigit(c: char) { '0' <= c <= '9' || 'A' <= c <= 'F' }

  predicate IsUpperHex(s: string) {
    forall i :: 0 <= i < |s| ==> IsHexDigit(s[i])
  }

  lemma HexCharacter(c: char)
    requires IsHexDigit(c)
    ensures !IsSeparator(c) && ToUpper(c) == c
  {
  }

  lemma {:induction false} NormalizeTyped(plain: string, typed: string)
    requires IsUpperHex(plain) && TypedAs(plain, typed)
    ensures Normalize(typed) == plain
  {
    if typed == "" {
    } else if IsSeparator(typed[0]) {
      NormalizeTyped(plain, typed[1..]);
    } else {
      HexCharacter(plain[0]);
      NormalizeTyped(plain[1..], typed[1..]);
    }
  }

  lemma {:induction false} DashedIsTyped(plain: string)
    requires IsUpperHex(plain)
    ensures TypedAs(plain, Dashed(plain))
    decreases |plain|
  {
    if |plain| <= 5 {
      PlainIsTyped(plain, "", "");
      assert plain + "" == plain;
    } else {
      DashedIsTyped(plain[5..]);
      PlainIsTyped(plain[..5], plain[5..], "-" + Dashed(plain[5..]));
      assert plain[..5] + plain[5..] == plain;
      assert plain[..5] + ("-" + Dashed(plain[5..])) == Dashed(plain);
    }
  }

  lemma {:induction false} PlainIsTyped(head: string, rest: string, typedRest: string)
    requires IsUpperHex(head) && TypedAs(rest, typedRest)
    ensures TypedAs(head + rest, head + typedRest)
  {
    if head == "" {
      assert head + rest == rest && head + typedRest == typedRest;
    } else {
      HexCharacter(head[0]);
      PlainIsTyped(head[1..], rest, typedRest);
      assert (head + rest)[1..] == head[1..] + rest;
      assert (head + typedRest)[1..] == head[1..] + typedRest;
    }
  }

  /** A printed code reads as four groups of five characters with a dash in between. */
  lemma PrintedInFours(raw: seq<Nibble>)
    requires |raw| == 20
    ensures var s := Hex(raw); Print(raw) == s[..5] + "-" + s[5..10] + "-" + s[10..15] + "-" + s[15..]
  {
    var s := Hex(raw);
    assert s[5..][..5] == s[5..10] && s[5..][5..] == s[10..];
    assert s[10..][..5] == s[10..15] && s[10..][5..] == s[15..];
    assert Dashed(s[10..]) == s[10..15] + "-" + s[15..];
    assert Dashed(s[5..]) == s[5..10] + "-" + (s[10..15] + "-" + s[15..]);
  }

  /**
   * Any way of typing a printed code (as printed, without dashes, with spaces, in lower
   * case) normalises to its twenty hexadecimal characters, so all of them have the digest
   * stored at enrolment.
   */
  lemma TypedCodeHashesAsPrinted(raw: seq<Nibble>, typed: string)
    requires |raw| == 20 && TypedAs(Hex(raw), typed)
    ensures Normalize(typed) == Hex(raw) && |Normalize(typed)| == 20
    ensures HashCode(typed) == HashCode(Print(raw))
  {
    NormalizeTyped(Hex(raw), typed);
    DashedIsTyped(Hex(raw));
    NormalizeTyped(Hex(raw), Print(raw));
  }

  /** Distinct random bytes give codes with distinct digests. */
  lemma PrintedCodesAreDistinct(raw: seq<Nibble>, other: seq<Nibble>)
    requires |raw| == 20 && |other| == 20
    ensures HashCode(Print(raw)) == HashCode(Print(other)) <==> raw == other
  {
    DashedIsTyped(Hex(raw));
    DashedIsTyped(Hex(other));
    NormalizeTyped(Hex(raw), Print(raw));
    NormalizeTyped(Hex(other), Print(other));
    if Hex(raw) == Hex(other) {
      forall i | 0 <= i < 20 ensures raw[i] == other[i] {
        assert UPPER_HEX[raw[i] as int] == Hex(raw)[i] == Hex(other)[i] == UPPER_HEX[other[i] as int];
        HexDigitsDiffer(raw[i], other[i]);
      }
    }
  }

  lemma HexDigitsDiffer(a: Nibble, b: Nibble)
    requires UPPER_HEX[a as int] == UPPER_HEX[b as int]
    ensures a == b
  {
  }
}
