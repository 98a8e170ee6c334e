/** IMDb title ids. */
module Ids {
  import opened Wrappers
  import opened Decimal

  predicate IsSpace(c: char) {
    c == ' ' || '\t' <= c <= '\r' || '\U{1c}' <= c <= '\U{1f}'
  }

  function TrimLeft(s: string): string {
    if s != [] && IsSpace(s[0]) then TrimLeft(s[1..]) else s
  }

  function TrimRight(s: string): string {
    if s != [] && IsSpace(s[|s| - 1]) then TrimRight(s[..|s| - 1]) else s
  }

  function Trim(s: string): string {
    TrimRight(TrimLeft(s))
  }

  /** `tt` followed by digits. */
  predicate ImdbTitleId(s: string) {
    |s| > 2 && s[..2] == "tt" && IsDigits(s[2..])
  }

  function NormalizedImdb(s: string): Option<string> {
    if ImdbTitleId(Trim(s)) then Some(Trim(s)) else None
  }

  lemma TitleIdHasNoSpace(s: string)
    requires ImdbTitleId(s)
    ensures !IsSpace(s[0]) && !IsSpace(s[|s| - 1]) && Trim(s) == s
  {
    assert s[0] == s[..2][0] && s[|s| - 1] in s[2..];
  }

  /** Normalising keeps exactly the title ids as they are. */
  lemma NormalizingIsStable(s: string)
    ensures NormalizedImdb(s) == Some(s) <==> ImdbTitleId(s)
    ensures NormalizedImdb(s).Some? ==> NormalizedImdb(NormalizedImdb(s).value) == NormalizedImdb(s)
  {
    if ImdbTitleId(s) {
      TitleIdHasNoSpace(s);
    }
    if ImdbTitleId(Trim(s)) {
      TitleIdHasNoSpace(Trim(s));
    }
  }
}
