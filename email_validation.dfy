/**
 * The email check of the view model (`isValidEmail`), i.e. a whole-string match of
 *   ^[A-Za-z0-9._%+-]+@[A-Za-z0-9.-]+\.[A-Za-z]{2,}$
 * written as a decidable predicate, and proved equal to the regex's meaning.
 */
module EmailValidation {
  import opened Wrappers

  predicate IsAsciiLetter(c: char) {
    ('A' <= c <= 'Z') || ('a' <= c <= 'z')
  }

  predicate IsAsciiDigit(c: char) {
    '0' <= c <= '9'
  }

  /** The class `[A-Za-z0-9._%+-]` of the part before the `@`. */
  predicate IsLocalChar(c: char) {
    IsAsciiLetter(c) || IsAsciiDigit(c) || c == '.' || c == '_' || c == '%' || c == '+' || c == '-'
  }

  /** The class `[A-Za-z0-9.-]` of the domain before its last dot. */
  predicate IsDomainChar(c: char) {
    IsAsciiLetter(c) || IsAsciiDigit(c) || c == '.' || c == '-'
  }

  predicate AllLocal(s: string) {
    forall i :: 0 <= i < |s| ==> IsLocalChar(s[i])
  }

  predicate AllDomain(s: string) {
    forall i :: 0 <= i < |s| ==> IsDomainChar(s[i])
  }

  predicate AllLetters(s: string) {
    forall i :: 0 <= i < |s| ==> IsAsciiLetter(s[i])
  }

  /** The first position at or after `i` holding `c`, if any. */
  function IndexFrom(s: string, c: char, i: nat): (r: Option<nat>)
    requires i <= |s|
    ensures r.Some? ==> i <= r.value < |s| && s[r.value] == c && forall j :: i <= j < r.value ==> s[j] != c
    ensures r.None? ==> forall j :: i <= j < |s| ==> s[j] != c
    decreases |s| - i
  {
    if i == |s| then None
    else if s[i] == c then Some(i)
    else IndexFrom(s, c, i + 1)
  }

  /** The last position before `n` holding `c`, if any. */
  function IndexBefore(s: string, c: char, n: nat): (r: Option<nat>)
    requires n <= |s|
    ensures r.Some? ==> r.value < n && s[r.value] == c && forall j :: r.value < j < n ==> s[j] != c
    ensures r.None? ==> forall j :: 0 <= j < n ==> s[j] != c
  {
    if n == 0 then None
    else if s[n - 1] == c then Some(n - 1)
    else IndexBefore(s, c, n - 1)
  }

  /** The first position holding `c`, if any. */
  function FirstIndexOf(s: string, c: char): (r: Option<nat>)
    ensures r.Some? ==> r.value < |s| && s[r.value] == c && forall i :: 0 <= i < r.value ==> s[i] != c
    ensures r.None? ==> forall i :: 0 <= i < |s| ==> s[i] != c
  {
    IndexFrom(s, c, 0)
  }

  /** The last position holding `c`, if any. */
  function LastIndexOf(s: string, c: char): (r: Option<nat>)
    ensures r.Some? ==> r.value < |s| && s[r.value] == c && forall i :: r.value < i < |s| ==> s[i] != c
    ensures r.None? ==> forall i :: 0 <= i < |s| ==> s[i] != c
  {
    IndexBefore(s, c, |s|)
  }

  /**
   * `[A-Za-z0-9.-]+\.[A-Za-z]{2,}`: the top-level label runs from the last dot, has at
   * least two letters, and what precedes that dot is a non-empty run of domain characters.
   */
  predicate IsValidDomain(d: string) {
    match LastIndexOf(d, '.')
    case None => false
    case Some(dot) => dot >= 1 && AllDomain(d[..dot]) && |d| - dot - 1 >= 2 && AllLetters(d[dot + 1..])
  }

  /** `isValidEmail`: a non-empty local part up to the first `@`, then a valid domain. */
  predicate IsValidEmail(s: string) {
    match FirstIndexOf(s, '@')
    case None => false
    case Some(at) => at >= 1 && AllLocal(s[..at]) && IsValidDomain(s[at + 1..])
  }

  /** The regex matches `s` with its `@` at `at` and the dot before the top-level label at `dot`. */
  ghost predicate MatchesAt(s: string, at: int, dot: int) {
    && 1 <= at < dot < |s| && s[at] == '@' && s[dot] == '.'
    && AllLocal(s[..at])
    && dot - at >= 2 && AllDomain(s[at + 1..dot])
    && |s| - dot - 1 >= 2 && AllLetters(s[dot + 1..])
  }

  /** The meaning of the regex under a whole-string match: some way of splitting `s` fits it. */
  ghost predicate MatchesEmailRegex(s: string) {
    exists at, dot :: MatchesAt(s, at, dot)
  }

  /** The predicate accepts exactly the strings the regex matches. */
  lemma {:induction false} IsValidEmailMatchesRegex(s: string)
    ensures IsValidEmail(s) <==> MatchesEmailRegex(s)
  {
    if IsValidEmail(s) {
      var at := FirstIndexOf(s, '@').value;
      var d := s[at + 1..];
      var dot := LastIndexOf(d, '.').value;
      assert s[at + 1..at + 1 + dot] == d[..dot];
      assert s[at + 1 + dot + 1..] == d[dot + 1..];
      assert MatchesAt(s, at, at + 1 + dot);
    }
    if MatchesEmailRegex(s) {
      var at, dot :| MatchesAt(s, at, dot);
      MatchDeterminesSplit(s, at, dot);
    }
  }

  /** Any match splits at the first `@` and at the last dot after it, as IsValidEmail does. */
  lemma {:induction false} MatchDeterminesSplit(s: string, at: int, dot: int)
    requires MatchesAt(s, at, dot)
    ensures IsValidEmail(s)
  {
    var first := FirstIndexOf(s, '@');
    assert first.Some? && first.value <= at;
    var d := s[at + 1..];
    var last := LastIndexOf(d, '.');
    var rel := dot - at - 1;
    assert d[rel] == '.';
    assert last.Some? && rel <= last.value;
    assert d[..rel] == s[at + 1..dot];
    assert d[rel + 1..] == s[dot + 1..];
  }

  /** Both seeded addresses are accepted. */
  lemma {:induction false} SeedAddressIsValid()
    ensures IsValidEmail("test@cliniq.com") && IsValidEmail("demo@cliniq.com")
  {
    var t, d := "test@cliniq.com", "demo@cliniq.com";
    assert AllLocal(t[..4]) && AllLocal(d[..4]);
    assert AllDomain(t[5..11]) && AllDomain(d[5..11]);
    assert AllLetters(t[12..]) && AllLetters(d[12..]);
    assert MatchesAt(t, 4, 11) && MatchesAt(d, 4, 11);
    IsValidEmailMatchesRegex(t);
    IsValidEmailMatchesRegex(d);
  }

  /** An address whose top-level label has one letter is refused. */
  lemma {:induction false} OneLetterLabelIsInvalid()
    ensures !IsValidEmail("user@host.c")
  {
  }
}
