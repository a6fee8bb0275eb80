/** Document identifiers: 24 lower-case hexadecimal digits, parsed the way `new ObjectId(string)`
    does in major version 6 of the bson package (exactly 24 hex digits of either case; anything
    else throws). Earlier major versions also accept any 12-character string; the server's
    package manifest is not part of this model, so version 6 is assumed. */
module ObjectIds {
  import opened Wrappers

  predicate IsHexDigit(c: char) { '0' <= c <= '9' || 'a' <= c <= 'f' || 'A' <= c <= 'F' }

  predicate IsLowerHexDigit(c: char) { '0' <= c <= '9' || 'a' <= c <= 'f' }

  predicate IsCanonical(s: string) {
    |s| == 24 && forall i :: 0 <= i < |s| ==> IsLowerHexDigit(s[i])
  }

  function Zeros(n: nat): (s: string)
    ensures |s| == n && forall i :: 0 <= i < n ==> s[i] == '0'
  {
    seq(n, _ => '0')
  }

  datatype Oid = Oid(hex: string)

  /** An identifier in its canonical text form, as `ObjectId.toHexString()` prints it. */
  type ObjectId = o: Oid | IsCanonical(o.hex) witness Oid(Zeros(24))

  function LowerHexDigit(c: char): (d: char)
    requires IsHexDigit(c)
    ensures IsLowerHexDigit(d)
    ensures IsLowerHexDigit(c) ==> d == c
  {
    if 'A' <= c <= 'F' then (c as int + 32) as char else c
  }

  /** `new ObjectId(s)`: `None` is the thrown error. */
  function ParseObjectId(s: string): (r: Option<ObjectId>)
    ensures r.Some? <==> |s| == 24 && forall i :: 0 <= i < |s| ==> IsHexDigit(s[i])
    ensures r.Some? ==> forall i :: 0 <= i < |s| ==> r.value.hex[i] == LowerHexDigit(s[i])
  {
    if |s| == 24 && forall i :: 0 <= i < |s| ==> IsHexDigit(s[i]) then
      Some(Oid(seq(24, i requires 0 <= i < 24 => LowerHexDigit(s[i]))))
    else
      None
  }

  /** The text form of an identifier parses back to the same identifier. */
  lemma ParseHexString(o: ObjectId)
    ensures ParseObjectId(o.hex) == Some(o)
  {
    var r := ParseObjectId(o.hex);
    assert r.Some?;
    assert r.value.hex == o.hex;
  }
}
