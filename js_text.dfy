/** Character classes of JavaScript regular expressions. */
module JsText {
  /** The characters `\s` matches: the ECMAScript white-space and
      line-terminator code points. */
  predicate IsSpace(c: char) {
    var n := c as int;
    n == 0x09 || n == 0x0A || n == 0x0B || n == 0x0C || n == 0x0D || n == 0x20
    || n == 0xA0 || n == 0x1680 || (0x2000 <= n <= 0x200A)
    || n == 0x2028 || n == 0x2029 || n == 0x202F || n == 0x205F
    || n == 0x3000 || n == 0xFEFF
  }

  /** Every character of `t` is matched by `\S`. */
  predicate NoSpace(t: string) {
    forall i :: 0 <= i < |t| ==> !IsSpace(t[i])
  }

  /** A string's `length`: JavaScript strings are sequences of UTF-16 code
      units, so a code point above U+FFFF (a surrogate pair) counts twice. */
  function Utf16Length(t: string): (n: nat)
    ensures |t| <= n <= 2 * |t|
    ensures n == 0 <==> t == ""
    ensures (forall i :: 0 <= i < |t| ==> t[i] as int < 0x10000) ==> n == |t|
  {
    if t == [] then 0
    else (if t[0] as int >= 0x10000 then 2 else 1) + Utf16Length(t[1..])
  }

  /** `length` adds up over concatenation. */
  lemma {:induction false} Utf16LengthAppend(a: string, b: string)
    ensures Utf16Length(a + b) == Utf16Length(a) + Utf16Length(b)
  {
    if a == [] {
      assert a + b == b;
    } else {
      assert (a + b)[0] == a[0] && (a + b)[1..] == a[1..] + b;
      Utf16LengthAppend(a[1..], b);
    }
  }
}
