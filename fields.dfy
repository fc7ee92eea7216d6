/** How the offer code sees the values of a decoded JSON object: Python's
    `dict.get`, truthiness and `or`, f-string interpolation and `str.strip`. */
module Fields {

  datatype Option<T> = None | Some(value: T)

  /** One key of a JSON object: missing, present with `null`, or present with a string. */
  datatype Field = Absent | Null | Text(text: string)

  /** `d.get(k)`: the string, or None when the key is missing or null. */
  function Get(f: Field): Option<string>
  {
    match f
    case Text(s) => Some(s)
    case _ => None
  }

  /** `d.get(k, default)`: the default stands in only for a missing key, not for `null`. */
  function GetOr(f: Field, default: string): Option<string>
  {
    match f
    case Absent => Some(default)
    case Null => None
    case Text(s) => Some(s)
  }

  /** Python truthiness of a string-or-None value. */
  predicate Truthy(v: Option<string>)
  {
    v.Some? && v.value != ""
  }

  /** Python's `a or b` on string-or-None values. */
  function Or(a: Option<string>, b: Option<string>): Option<string>
  {
    if Truthy(a) then a else b
  }

  /** `f"{v}"`: None is rendered as the text "None". */
  function Show(v: Option<string>): string
  {
    match v
    case None => "None"
    case Some(s) => s
  }

  /** The characters `str.isspace` accepts, that is, those `str.strip()` removes. */
  predicate IsSpace(c: char)
  {
    || c == ' '
    || ('\t' <= c <= '\r')
    || ('\U{1C}' <= c <= '\U{1F}')
    || c == '\U{85}' || c == '\U{A0}' || c == '\U{1680}'
    || ('\U{2000}' <= c <= '\U{200A}')
    || c == '\U{2028}' || c == '\U{2029}' || c == '\U{202F}' || c == '\U{205F}' || c == '\U{3000}'
  }

  predicate AllSpace(s: string)
  {
    forall k :: 0 <= k < |s| ==> IsSpace(s[k])
  }

  /** A string with no whitespace at either end. */
  predicate Trimmed(s: string)
  {
    s == [] || (!IsSpace(s[0]) && !IsSpace(s[|s| - 1]))
  }

  /** `str.lstrip()`. */
  function StripLeading(s: string): string
  {
    if s != [] && IsSpace(s[0]) then StripLeading(s[1..]) else s
  }

  /** `str.rstrip()`. */
  function StripTrailing(s: string): string
  {
    if s != [] && IsSpace(s[|s| - 1]) then StripTrailing(s[..|s| - 1]) else s
  }

  /** `str.strip()`. */
  function Strip(s: string): string
  {
    StripTrailing(StripLeading(s))
  }

  /** `r` is what is left of `s` once an all-whitespace prefix and an all-whitespace suffix are cut off. */
  ghost predicate StrippedFrom(r: string, s: string)
  {
    exists i :: 0 <= i && i + |r| <= |s| && r == s[i..i + |r|] && AllSpace(s[..i]) && AllSpace(s[i + |r|..])
  }

  /** `lstrip` drops the longest all-whitespace prefix. */
  lemma {:induction false} StripLeadingSpec(s: string)
    ensures var r := StripLeading(s);
            |r| <= |s| && r == s[|s| - |r|..] && AllSpace(s[..|s| - |r|]) && (r == [] || !IsSpace(r[0]))
  {
    if s != [] && IsSpace(s[0]) {
      StripLeadingSpec(s[1..]);
      var r := StripLeading(s[1..]);
      assert s[1..][..|s| - 1 - |r|] == s[1..|s| - |r|];
      assert forall k :: 1 <= k < |s| - |r| ==> s[k] == s[1..][k - 1];
    } else {
      assert s[..0] == [];
    }
  }

  /** `rstrip` drops the longest all-whitespace suffix. */
  lemma {:induction false} StripTrailingSpec(s: string)
    ensures var r := StripTrailing(s);
            |r| <= |s| && r == s[..|r|] && AllSpace(s[|r|..]) && (r == [] || !IsSpace(r[|r| - 1]))
  {
    if s != [] && IsSpace(s[|s| - 1]) {
      StripTrailingSpec(s[..|s| - 1]);
      var r := StripTrailing(s[..|s| - 1]);
      assert s[..|s| - 1][|r|..] == s[|r|..|s| - 1];
      assert forall k :: |r| <= k < |s| - 1 ==> s[k] == s[..|s| - 1][k];
    } else {
      assert s[|s|..] == [];
    }
  }

  /** `str.strip()`: the result is the part of `s` between an all-whitespace
      prefix and an all-whitespace suffix, has no whitespace at either end, and
      is empty exactly when `s` is all whitespace. */
  lemma StripSpec(s: string)
    ensures Trimmed(Strip(s))
    ensures StrippedFrom(Strip(s), s)
    ensures Strip(s) == [] <==> AllSpace(s)
  {
    var t := StripLeading(s);
    var r := StripTrailing(t);
    StripLeadingSpec(s);
    StripTrailingSpec(t);
    var i := |s| - |t|;
    assert s[i..] == t;
    assert r == s[i..i + |r|];
    assert s[i + |r|..] == t[|r|..];
    assert r == [] ==> t == [] && s[..i] == s;
    assert r != [] ==> !IsSpace(s[i]);
    assert AllSpace(s[..i]) && AllSpace(s[i + |r|..]);
    assert StrippedFrom(r, s);
  }
}
