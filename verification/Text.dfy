/** C strings that may be missing, and the library's comparisons on them. */
module Text {

  datatype Option<+T> = None | Some(value: T)

  /** A `const char*`: `None` is the NULL pointer. */
  type CString = Option<string>

  /** `mupnp_strlen(s) <= 0`. */
  predicate IsBlank(s: CString) {
    s.None? || s.value == ""
  }

  function OrEmpty(s: CString): string {
    if s.None? then "" else s.value
  }

  /** `mupnp_streq`: NULL equals nothing, not even NULL. */
  predicate StrEq(a: CString, b: CString) {
    a.Some? && b.Some? && a.value == b.value
  }

  /** `mupnp_device_optstreq`: two missing (NULL or empty) values are equal. */
  predicate OptStrEq(a: CString, b: CString) {
    if IsBlank(a) || IsBlank(b) then IsBlank(a) && IsBlank(b) else StrEq(a, b)
  }

  /** `0 <= mupnp_strstr(haystack, needle)`. */
  predicate Contains(haystack: string, needle: string) {
    exists i | 0 <= i <= |haystack| - |needle| :: OccursAt(haystack, needle, i)
  }

  predicate OccursAt(haystack: string, needle: string, i: nat)
    requires i + |needle| <= |haystack|
  {
    haystack[i..i + |needle|] == needle
  }
}
