/** Identifiers and their validation rules: `crates/core/src/ids.rs`. */
module Ids {
  import Text

  /** A resource `<type>.<class>#<id>`, unique within an environment. */
  datatype Descriptor = Descriptor(ty: string, cls: string, id: string)

  const MAX_ID_LEN: nat := 50

  const DEFAULT_CLASS := "default"

  predicate IsLowerAlnum(c: char) { 'a' <= c <= 'z' || '0' <= c <= '9' }

  predicate IsAlnum(c: char) { IsLowerAlnum(c) || 'A' <= c <= 'Z' }

  /** Lowercase letters, digits and single inner hyphens, 2 to 50 characters. */
  predicate IsObjectId(s: string) {
    && 2 <= |s| <= MAX_ID_LEN
    && IsLowerAlnum(s[0]) && IsLowerAlnum(s[|s| - 1])
    && (forall i :: 0 <= i < |s| ==> IsLowerAlnum(s[i]) || s[i] == '-')
    && (forall i :: 0 < i < |s| ==> !(s[i - 1] == '-' && s[i] == '-'))
  }

  predicate IsTypeName(s: string) {
    && s != "" && |s| <= MAX_ID_LEN
    && (forall i :: 0 <= i < |s| ==> IsLowerAlnum(s[i]) || s[i] == '-')
    && s[0] != '-' && s[|s| - 1] != '-'
  }

  /** A built-in name such as `postgres` or a custom `{org}/{name}`. */
  predicate IsTypeId(s: string) {
    var slash := Text.Find(s, '/');
    if slash < |s| then IsObjectId(s[..slash]) && IsTypeName(s[slash + 1..]) else IsTypeName(s)
  }

  /** Dot-separated segments of letters, digits, `-` and `_`. */
  predicate IsResId(s: string) {
    && s != "" && |s| <= 255
    && (forall i :: 0 <= i < |s| ==> IsAlnum(s[i]) || s[i] == '-' || s[i] == '_' || s[i] == '.')
    && s[0] != '.' && s[|s| - 1] != '.'
    && (forall i :: 0 < i < |s| ==> !(s[i - 1] == '.' && s[i] == '.'))
  }
}
