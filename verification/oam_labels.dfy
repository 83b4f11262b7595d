/** Which keys may label or annotate a manifest. */
module OamLabels {
  import opened Splitting

  predicate IsAlpha(c: char) {
    'a' <= c <= 'z' || 'A' <= c <= 'Z'
  }

  predicate IsAlphanumeric(c: char) {
    IsAlpha(c) || '0' <= c <= '9'
  }

  predicate IsDnsLabel(part: string) {
    && 0 < |part| <= 63
    && IsAlpha(part[0]) && IsAlphanumeric(part[|part| - 1])
    && forall i :: 0 <= i < |part| ==> IsAlphanumeric(part[i]) || part[i] == '-'
  }

  predicate IsDnsSubdomain(s: string) {
    0 < |s| <= 253 && forall i :: 0 <= i < |Split(s, '.')| ==> IsDnsLabel(Split(s, '.')[i])
  }

  predicate IsLabelName(name: string) {
    && 0 < |name| <= 63
    && IsAlphanumeric(name[0]) && IsAlphanumeric(name[|name| - 1])
    && forall i :: 0 <= i < |name| ==> IsAlphanumeric(name[i]) || name[i] in {'-', '_', '.'}
  }

  /** A name, or a domain and a name with the first slash between them. */
  predicate IsOamLabel(key: string) {
    var parts := Split(key, '/');
    if |parts| == 1 then IsLabelName(key) else IsDnsSubdomain(parts[0]) && IsLabelName(Join(parts[1..], '/'))
  }

  /** A name may not have a slash, so a key has at most one. */
  lemma OneSlash(key: string)
    requires IsOamLabel(key)
    ensures |Split(key, '/')| <= 2
  {
    var parts := Split(key, '/');
    if |parts| > 2 { JoinHasSeparator(parts[1..], '/'); }
  }

  // ---------- character by character ----------

  /** Letters and digits by their codes. */
  predicate Letter(c: char) {
    65 <= c as int < 65 + 26 || 97 <= c as int < 97 + 26
  }

  predicate LetterOrDigit(c: char) {
    Letter(c) || 48 <= c as int < 48 + 10
  }

  /** A key without a slash is a name: at most 63 letters, digits, dashes, underscores and dots, a letter or
      digit at each end. */
  lemma NameKeys(key: string)
    requires '/' !in key
    ensures IsOamLabel(key) <==>
            && 0 < |key| <= 63 && LetterOrDigit(key[0]) && LetterOrDigit(key[|key| - 1])
            && forall i :: 0 <= i < |key| ==> LetterOrDigit(key[i]) || key[i] == '-' || key[i] == '_' || key[i] == '.'
  {
    SplitFree(key, '/');
  }

  /** Between dots a domain has 63 letters, digits and dashes at most, a letter first and no dash last. */
  lemma DomainPart(part: string)
    ensures IsDnsLabel(part) <==>
            && 0 < |part| <= 63 && Letter(part[0]) && LetterOrDigit(part[|part| - 1])
            && forall i :: 0 <= i < |part| ==> LetterOrDigit(part[i]) || part[i] == '-'
  {}

  /** A slash follows a domain of at most 253 characters. */
  lemma DomainKeys(domain: string, name: string)
    requires '/' !in domain && '/' !in name
    ensures IsOamLabel(domain + ['/'] + name) <==>
            && IsOamLabel(name) && 0 < |domain| <= 253
            && forall i :: 0 <= i < |Split(domain, '.')| ==> IsDnsLabel(Split(domain, '.')[i])
  {
    var key := domain + ['/'] + name;
    SplitAt(domain, '/', name);
    SplitFree(name, '/');
    var parts := Split(key, '/');
    assert parts == [domain, name] && parts[1..] == [name] && Join(parts[1..], '/') == name;
    assert IsOamLabel(name) <==> IsLabelName(name);
    assert IsOamLabel(key) <==> IsDnsSubdomain(domain) && IsLabelName(name);
  }

  lemma VersionIsLabel()
    ensures IsOamLabel("version")
  {
    SplitFree("version", '/');
  }
}
