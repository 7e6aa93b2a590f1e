/** MongoDB ObjectIds: the record key `_id` and its public form (the `id`
    virtual of the schema, `this._id.toHexString()`), and the cast Mongoose
    applies to an id string before a by-id query. */
module ObjectIds {
  import opened Wrappers

  /** An ObjectId is twelve bytes, written as 24 hexadecimal digits. */
  const ID_DIGITS: nat := 24

  function Pow16(n: nat): (p: nat)
    ensures p > 0
  {
    if n == 0 then 1 else 16 * Pow16(n - 1)
  }

  /** The twelve-byte id, as the number it spells out. */
  type ObjectId = n: nat | n < Pow16(ID_DIGITS)

  predicate IsHexDigit(c: char)
  {
    '0' <= c <= '9' || 'a' <= c <= 'f' || 'A' <= c <= 'F'
  }

  predicate IsLowerHexDigit(c: char)
  {
    '0' <= c <= '9' || 'a' <= c <= 'f'
  }

  predicate IsLowerHex(s: string)
  {
    forall i :: 0 <= i < |s| ==> IsLowerHexDigit(s[i])
  }

  /** The value of one hexadecimal digit, upper or lower case. */
  function DigitValue(c: char): (v: Option<nat>)
    ensures v.Some? <==> IsHexDigit(c)
    ensures v.Some? ==> v.value < 16
  {
    if '0' <= c <= '9' then Some(c as int - '0' as int)
    else if 'a' <= c <= 'f' then Some(c as int - 'a' as int + 10)
    else if 'A' <= c <= 'F' then Some(c as int - 'A' as int + 10)
    else None
  }

  /** The lower-case digit for `d`. */
  function DigitChar(d: nat): (c: char)
    requires d < 16
    ensures IsLowerHexDigit(c)
    ensures DigitValue(c) == Some(d)
  {
    if d < 10 then ('0' as int + d) as char else ('a' as int + d - 10) as char
  }

  /** The `width` lower-case hexadecimal digits of `n`, most significant first. */
  function ToHex(n: nat, width: nat): (s: string)
    requires n < Pow16(width)
    ensures |s| == width
    ensures IsLowerHex(s)
  {
    if width == 0 then "" else ToHex(n / 16, width - 1) + [DigitChar(n % 16)]
  }

  /** The number a string of hexadecimal digits spells, or None if some
      character is not a hexadecimal digit. */
  function ParseHex(s: string): (v: Option<nat>)
    ensures v.Some? <==> forall i :: 0 <= i < |s| ==> IsHexDigit(s[i])
    ensures v.Some? ==> v.value < Pow16(|s|)
  {
    if s == [] then Some(0)
    else
      var init := s[..|s| - 1];
      assert forall i :: 0 <= i < |init| ==> init[i] == s[i];
      match (ParseHex(init), DigitValue(s[|s| - 1]))
      case (Some(high), Some(low)) => Some(high * 16 + low)
      case _ => None
  }

  /** `_id.toHexString()`: the public `id` of a record. */
  function ToHexString(id: ObjectId): (s: string)
    ensures |s| == ID_DIGITS && IsLowerHex(s)
  {
    ToHex(id, ID_DIGITS)
  }

  /** The ObjectId cast of an id string: exactly 24 hexadecimal digits,
      in either case; anything else is a cast error. */
  function ParseObjectId(s: string): (r: Option<ObjectId>)
    ensures r.Some? <==> |s| == ID_DIGITS && forall i :: 0 <= i < |s| ==> IsHexDigit(s[i])
  {
    if |s| != ID_DIGITS then None
    else
      match ParseHex(s)
      case Some(v) => Some(v)
      case None => None
  }

  /** Reading back the digits written by ToHex gives the number. */
  lemma {:induction false} ParseHexOfToHex(n: nat, width: nat)
    requires n < Pow16(width)
    ensures ParseHex(ToHex(n, width)) == Some(n)
  {
    if width > 0 {
      var s := ToHex(n, width);
      ParseHexOfToHex(n / 16, width - 1);
      assert s[..|s| - 1] == ToHex(n / 16, width - 1);
      assert s[|s| - 1] == DigitChar(n % 16);
    }
  }

  /** Writing out the number a lower-case digit string spells gives the string. */
  lemma {:induction false} ToHexOfParseHex(s: string)
    requires IsLowerHex(s)
    ensures ParseHex(s).Some? && ToHex(ParseHex(s).value, |s|) == s
  {
    if s != [] {
      var init := s[..|s| - 1];
      var last := s[|s| - 1];
      assert IsLowerHex(init) by {
        assert forall i :: 0 <= i < |init| ==> init[i] == s[i];
      }
      ToHexOfParseHex(init);
      assert IsLowerHexDigit(last);
      var high := ParseHex(init).value;
      var low := DigitValue(last).value;
      var v := high * 16 + low;
      assert ParseHex(s) == Some(v);
      assert v / 16 == high && v % 16 == low;
      assert DigitChar(low) == last;
      assert s == init + [last];
    }
  }

  /** The public id determines the record id: parsing it back yields the id. */
  lemma ParseOfHexString(id: ObjectId)
    ensures ParseObjectId(ToHexString(id)) == Some(id)
  {
    ParseHexOfToHex(id, ID_DIGITS);
  }

  /** Two records have the same public id exactly when they have the same `_id`. */
  lemma HexStringInjective(a: ObjectId, b: ObjectId)
    ensures ToHexString(a) == ToHexString(b) <==> a == b
  {
    ParseOfHexString(a);
    ParseOfHexString(b);
  }

  /** A lower-case string casts to `id` exactly when it is the public form of `id`. */
  lemma HexStringCanonical(s: string, id: ObjectId)
    ensures (IsLowerHex(s) && ParseObjectId(s) == Some(id)) <==> s == ToHexString(id)
  {
    if s == ToHexString(id) {
      ParseOfHexString(id);
    }
    if IsLowerHex(s) && ParseObjectId(s) == Some(id) {
      ToHexOfParseHex(s);
    }
  }
}
