module CStrings {
  type int8 = c: int | -128 <= c < 128
  type NonNul = c: int | -128 <= c < 128 && c != 0 witness 1

  // What strcmp, strlen and strncpy see of a string: its characters before the terminator.
  type CString = seq<NonNul>

  const MAX_KEY_LEN: nat := 64
  const MAX_VAL_LEN: nat := 256

  predicate ValidKeyArgument(key: CString) {
    key != [] && |key| < MAX_KEY_LEN
  }

  predicate ValidValueArgument(value: CString) {
    |value| < MAX_VAL_LEN
  }

  // The lengths accepted, terminator excluded.
  lemma ArgumentLengths(key: CString, value: CString)
    ensures ValidKeyArgument(key) <==> 1 <= |key| <= 63
    ensures ValidValueArgument(value) <==> |value| <= 255
  {
  }
}
