module CStrings {
  /** A C string is its characters before the terminating NUL. */
  predicate CString(s: seq<char>) { forall k :: 0 <= k < |s| ==> s[k] != '\0' }
}
