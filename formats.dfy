/**
  The string formats the request schemas check (`z.string().uuid()`, `z.string().email()`)
  and the confirmation number derived from a booking id.
 */
module Formats {

  predicate IsHexDigit(c: char)
  {
    ('0' <= c <= '9') || ('a' <= c <= 'f') || ('A' <= c <= 'F')
  }

  predicate IsUuidHyphenPosition(i: int)
  {
    i == 8 || i == 13 || i == 18 || i == 23
  }

  /** 8-4-4-4-12 hexadecimal digits separated by '-'. */
  predicate IsUuid(s: string)
  {
    |s| == 36 &&
    forall i :: 0 <= i < |s| ==> if IsUuidHyphenPosition(i) then s[i] == '-' else IsHexDigit(s[i])
  }

  predicate NoAtOrSpace(s: string)
  {
    forall i :: 0 <= i < |s| ==> s[i] != '@' && s[i] != ' '
  }

  /**
    An e-mail address, in simplified form: a non-empty local part, one '@', and a domain
    with a '.' that is neither its first nor its last character; no spaces.
   */
  predicate IsEmail(s: string)
  {
    exists k :: 0 < k < |s| && s[k] == '@' && NoAtOrSpace(s[..k]) && NoAtOrSpace(s[k + 1..])
      && exists j :: k + 1 < j < |s| - 1 && s[j] == '.'
  }

  /** `split('-')[0]`: the text before the first '-', or all of it when there is none. */
  function FirstSegment(s: string): (r: string)
    ensures |r| <= |s| && r == s[..|r|]
    ensures forall i :: 0 <= i < |r| ==> r[i] != '-'
    ensures |r| < |s| ==> s[|r|] == '-'
  {
    if s == [] || s[0] == '-' then [] else [s[0]] + FirstSegment(s[1..])
  }

  /** `toUpperCase` on ASCII letters; other characters are kept. */
  function UpperChar(c: char): char
  {
    if 'a' <= c <= 'z' then (c as int - 32) as char else c
  }

  function ToUpper(s: string): string
  {
    seq(|s|, i requires 0 <= i < |s| => UpperChar(s[i]))
  }

  /**
    `id.split('-')[0].toUpperCase()`: the characters of `id` before its first '-' (all of them
    when there is none), upper-cased.
   */
  function ConfirmationNumber(id: string): (r: string)
    ensures |r| <= |id|
    ensures forall i :: 0 <= i < |r| ==> id[i] != '-' && r[i] == UpperChar(id[i])
    ensures |r| < |id| ==> id[|r|] == '-'
  {
    ToUpper(FirstSegment(id))
  }

  /** The `length` of a JavaScript string: a character outside the Basic Multilingual Plane takes two UTF-16 code units. */
  function Utf16Length(s: string): (n: nat)
    ensures |s| <= n <= 2 * |s|
    ensures n == |s| <==> forall i :: 0 <= i < |s| ==> s[i] as int < 0x1_0000
  {
    if s == [] then 0
    else (if s[0] as int < 0x1_0000 then 1 else 2) + Utf16Length(s[1..])
  }

  /** For a UUID id the confirmation number is its first eight hex digits, upper-cased. */
  lemma ConfirmationOfUuid(id: string)
    requires IsUuid(id)
    ensures ConfirmationNumber(id) == ToUpper(id[..8])
    ensures |ConfirmationNumber(id)| == 8
    ensures forall i :: 0 <= i < 8 ==> var c := ConfirmationNumber(id)[i]; ('0' <= c <= '9') || ('A' <= c <= 'F')
  {
    var r := FirstSegment(id);
    assert id[8] == '-';
    forall i | 0 <= i < 8 ensures id[i] != '-' {
      assert !IsUuidHyphenPosition(i) && IsHexDigit(id[i]);
    }
    assert |r| == 8;
  }
}
