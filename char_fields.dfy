/**
 * How the serializers clean one submitted text value before it is saved: the
 * behaviour of the REST framework `CharField` that a model serializer
 * generates for a model's `CharField`, `TextField` or `EmailField`.
 *
 * Surrounding whitespace is stripped. A value that is empty after stripping
 * is refused unless the column allows blanks, and is then saved as "". A
 * null is refused unless the column is nullable. The stripped text must fit
 * the column's `max_length` and must not hold a NUL character. An absent
 * field is refused when the field is required.
 */
module CharFields {
  import opened Wrappers

  /** Python's `str.isspace`: the characters `str.strip()` removes. */
  predicate IsSpace(c: char)
  {
    || c == ' ' || '\t' <= c <= '\r' || '\U{1c}' <= c <= '\U{1f}' || c == '\U{85}' || c == '\U{a0}'
    || c == '\U{1680}' || '\U{2000}' <= c <= '\U{200a}' || c == '\U{2028}' || c == '\U{2029}'
    || c == '\U{202f}' || c == '\U{205f}' || c == '\U{3000}'
  }

  /** Every character of `s` is whitespace. */
  predicate AllSpace(s: string)
  {
    forall j :: 0 <= j < |s| ==> IsSpace(s[j])
  }

  /** The first position at or after `i` that is not whitespace, or `|s|`. */
  function Lead(s: string, i: nat): (k: nat)
    requires i <= |s|
    ensures i <= k <= |s| && (k < |s| ==> !IsSpace(s[k]))
    ensures forall j :: i <= j < k ==> IsSpace(s[j])
    decreases |s| - i
  {
    if i == |s| || !IsSpace(s[i]) then i else Lead(s, i + 1)
  }

  /** The end of `s[lo..hi]` once its trailing whitespace is cut off. */
  function Trail(s: string, lo: nat, hi: nat): (k: nat)
    requires lo <= hi <= |s|
    ensures lo <= k <= hi && (k > lo ==> !IsSpace(s[k - 1]))
    ensures forall j :: k <= j < hi ==> IsSpace(s[j])
    decreases hi
  {
    if hi == lo || !IsSpace(s[hi - 1]) then hi else Trail(s, lo, hi - 1)
  }

  /** Neither the first nor the last character is whitespace: what stripping leaves. */
  predicate Trimmed(t: string)
  {
    t == [] || (!IsSpace(t[0]) && !IsSpace(t[|t| - 1]))
  }

  /** `s.strip()`. */
  function Strip(s: string): (r: string)
    ensures |r| <= |s|
    ensures Trimmed(r)
    ensures r == [] <==> AllSpace(s)
  {
    var b := Lead(s, 0);
    s[b..Trail(s, b, |s|)]
  }

  /**
   * Stripping is exact: whatever whitespace surrounds a text that neither
   * starts nor ends with whitespace, stripping gives back that text.
   */
  lemma StripIsExact(pre: string, core: string, post: string)
    requires AllSpace(pre) && AllSpace(post)
    requires Trimmed(core)
    ensures Strip(pre + core + post) == core
  {
    var s := pre + core + post;
    forall j | 0 <= j < |pre|
      ensures IsSpace(s[j])
    {
      assert s[j] == pre[j];
    }
    forall j | |pre| + |core| <= j < |s|
      ensures IsSpace(s[j])
    {
      assert s[j] == post[j - |pre| - |core|];
    }
    if core != [] {
      assert s[|pre|] == core[0] && s[|pre| + |core| - 1] == core[|core| - 1];
      assert Lead(s, 0) == |pre|;
      assert Trail(s, |pre|, |s|) == |pre| + |core|;
      assert s[|pre|..|pre| + |core|] == core;
    }
  }

  /** A stripped text is not changed by stripping it again. */
  lemma StripIsIdempotent(s: string)
    ensures Strip(Strip(s)) == Strip(s)
  {
    StripIsExact([], Strip(s), []);
    assert [] + Strip(s) + [] == Strip(s);
  }

  /** What a field makes of a submitted value. */
  datatype Cleaned = Absent | Null | Text(text: string) | Refused

  /** The column's rules for one text field. */
  datatype Rules = Rules(required: bool, nullable: bool, blank: bool, maxLength: Option<nat>)

  /** A text that a field with these rules saves. */
  predicate Storable(t: string, rules: Rules)
  {
    && Trimmed(t)
    && (rules.maxLength.Some? ==> |t| <= rules.maxLength.value)
    && '\0' !in t
    && (t == [] ==> rules.blank)
  }

  /**
   * Cleaning one field of a body: `None` is an absent field, `Some(None)` an
   * explicit null, `Some(Some(s))` a text.
   */
  function Clean(sent: Option<Option<string>>, rules: Rules): (r: Cleaned)
    ensures r.Absent? <==> sent.None? && !rules.required
    ensures r.Null? <==> sent == Some(None) && rules.nullable
    ensures r.Text? ==> sent.Some? && sent.value.Some? && r.text == Strip(sent.value.value) && Storable(r.text, rules)
    ensures sent.Some? && sent.value.Some? ==> (r.Text? <==> Storable(Strip(sent.value.value), rules))
    ensures sent.Some? && sent.value.Some? && AllSpace(sent.value.value) && !rules.blank ==> r.Refused?
  {
    match sent
    case None => if rules.required then Refused else Absent
    case Some(None) => if rules.nullable then Null else Refused
    case Some(Some(s)) =>
      CleanText(Strip(s), rules)
  }

  /** The checks on a stripped text: blank, then `max_length` and NUL. */
  function CleanText(t: string, rules: Rules): (r: Cleaned)
    requires Trimmed(t)
    ensures r.Text? || r.Refused?
    ensures r.Text? <==> Storable(t, rules)
    ensures r.Text? ==> r.text == t
  {
    if t == [] then (if rules.blank then Text("") else Refused)
    else if (rules.maxLength.Some? && |t| > rules.maxLength.value) || '\0' in t then Refused
    else Text(t)
  }

  /** A text that was accepted is accepted again, unchanged. */
  lemma CleanIsIdempotent(sent: Option<Option<string>>, rules: Rules)
    requires Clean(sent, rules).Text?
    ensures Clean(Some(Some(Clean(sent, rules).text)), rules) == Clean(sent, rules)
  {
    StripIsIdempotent(sent.value.value);
  }

  /** Whitespace around a sent text makes no difference to what is saved. */
  lemma PaddingIsIgnored(pre: string, core: string, post: string, rules: Rules)
    requires AllSpace(pre) && AllSpace(post)
    requires Trimmed(core)
    ensures Clean(Some(Some(pre + core + post)), rules) == Clean(Some(Some(core)), rules)
  {
    StripIsExact(pre, core, post);
    StripIsExact([], core, []);
    assert [] + core + [] == core;
  }

  /** The value to save in a column that is not nullable: the cleaned text, or the old value when absent. */
  function SavedText(c: Cleaned, previous: string): (r: string)
    ensures c.Text? ==> r == c.text
    ensures !c.Text? ==> r == previous
  {
    if c.Text? then c.text else previous
  }

  /** The value to save in a nullable column: the cleaned text, null, or the old value when absent. */
  function Saved(c: Cleaned, previous: Option<string>): (r: Option<string>)
    ensures c.Text? ==> r == Some(c.text)
    ensures c.Null? ==> r == None
    ensures c.Absent? || c.Refused? ==> r == previous
  {
    match c
    case Text(t) => Some(t)
    case Null => None
    case _ => previous
  }
}
