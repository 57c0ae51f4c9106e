/** Creator identifiers and their textual form.

    A `java.util.UUID` is modelled as an unbounded natural number; its
    `toString()` text, which the not-found message embeds, is modelled as the
    lower-case hexadecimal numeral of that number. */
module Uuids {
  import opened Wrappers

  type Uuid = nat

  predicate IsHexChar(ch: char) {
    '0' <= ch <= '9' || 'a' <= ch <= 'f'
  }

  function HexDigit(d: nat): (ch: char)
    requires d < 16
    ensures IsHexChar(ch)
  {
    if d < 10 then ('0' as int + d) as char else ('a' as int + d - 10) as char
  }

  function DigitValue(ch: char): (r: Option<nat>)
    ensures r.Some? <==> IsHexChar(ch)
    ensures r.Some? ==> r.value < 16 && HexDigit(r.value) == ch
  {
    if '0' <= ch <= '9' then Some(ch as int - '0' as int)
    else if 'a' <= ch <= 'f' then Some(ch as int - 'a' as int + 10)
    else None
  }

  lemma DigitValueOfHexDigit(d: nat)
    requires d < 16
    ensures DigitValue(HexDigit(d)) == Some(d)
  {
  }

  /** The text of an identifier: its hexadecimal numeral, most significant
      digit first, without leading zeros. */
  function UuidText(u: Uuid): (s: string)
    ensures |s| > 0
    ensures forall i :: 0 <= i < |s| ==> IsHexChar(s[i])
    decreases u
  {
    if u < 16 then [HexDigit(u)] else UuidText(u / 16) + [HexDigit(u % 16)]
  }

  /** Reads a hexadecimal numeral back; `None` for an empty or non-hex text. */
  function ParseUuid(s: string): (r: Option<Uuid>)
    ensures r.Some? <==> |s| > 0 && forall i :: 0 <= i < |s| ==> IsHexChar(s[i])
  {
    if |s| == 0 then None
    else
      var last := DigitValue(s[|s| - 1]);
      if last.None? then None
      else if |s| == 1 then last
      else
        match ParseUuid(s[..|s| - 1])
        case None => None
        case Some(high) => Some(high * 16 + last.value)
  }

  /** Reading an identifier's text gives back the identifier. */
  lemma {:induction false} ParseUuidText(u: Uuid)
    ensures ParseUuid(UuidText(u)) == Some(u)
    decreases u
  {
    if u < 16 {
      DigitValueOfHexDigit(u);
    } else {
      var s := UuidText(u);
      var high := UuidText(u / 16);
      assert s == high + [HexDigit(u % 16)];
      assert s[..|s| - 1] == high;
      DigitValueOfHexDigit(u % 16);
      ParseUuidText(u / 16);
    }
  }

  /** Distinct identifiers have distinct texts. */
  lemma UuidTextInjective(u: Uuid, v: Uuid)
    requires UuidText(u) == UuidText(v)
    ensures u == v
  {
    ParseUuidText(u);
    ParseUuidText(v);
  }
}
