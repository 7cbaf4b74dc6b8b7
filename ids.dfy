/**
 * Document identifiers. A stored `_id` is a MongoDB ObjectId, whose string
 * form (`toString()`, and the `id` placed in issued tokens) is 24 lower-case
 * hexadecimal digits. Query filters cast a string to an ObjectId; a string
 * that is not 24 hexadecimal digits makes the cast throw a CastError.
 */
module Ids {
  import opened Wrappers

  predicate IsHexDigit(c: char) {
    '0' <= c <= '9' || 'a' <= c <= 'f' || 'A' <= c <= 'F'
  }

  predicate IsLowerHexDigit(c: char) {
    '0' <= c <= '9' || 'a' <= c <= 'f'
  }

  predicate IsCanonical(s: string) {
    |s| == 24 && forall i :: 0 <= i < |s| ==> IsLowerHexDigit(s[i])
  }

  /** The string form of an ObjectId. */
  type ObjectId = s: string | IsCanonical(s) witness "000000000000000000000000"

  function LowerHexDigit(c: char): (d: char)
    requires IsHexDigit(c)
    ensures IsLowerHexDigit(d)
  {
    if 'A' <= c <= 'F' then (c as int + 32) as char else c
  }

  /**
   * The ObjectId a filter value casts to: exactly the 24-digit hexadecimal
   * strings succeed, and the digits' case does not matter.
   */
  function Cast(s: string): (r: Option<ObjectId>)
    ensures r.Some? <==> |s| == 24 && forall i :: 0 <= i < |s| ==> IsHexDigit(s[i])
    ensures r.Some? ==> forall i :: 0 <= i < 24 ==> r.value[i] == LowerHexDigit(s[i])
  {
    if |s| == 24 && forall i :: 0 <= i < |s| ==> IsHexDigit(s[i]) then
      var t := seq(24, i requires 0 <= i < 24 => LowerHexDigit(s[i]));
      assert IsCanonical(t);
      Some(t)
    else None
  }

  /** Casting the string form of an ObjectId gives back that ObjectId. */
  lemma CastCanonical(id: ObjectId)
    ensures Cast(id) == Some(id)
  {
    assert forall i :: 0 <= i < 24 ==> IsHexDigit(id[i]);
    assert Cast(id).value == id;
  }

  /** A principal id that is the string form of `id` casts to `id`; a different cast means a different string. */
  lemma CastMismatch(s: string, id: ObjectId)
    requires Cast(s) != Some(id)
    ensures s != id
  {
    if s == id {
      CastCanonical(id);
    }
  }
}
