/** One line of the IMDb episode index: six fields separated by tabs. */
module EpisodeLine {
  import opened Wrappers
  import opened Decimal
  import opened Ids

  /** A row as it is written; the score is in tenths. */
  datatype Row = Row(parent: string, id: string, season: int, episode: int, votes: int, tenths: nat)

  /** An entry as it is read. */
  datatype Candidate = Candidate(parent: string, id: string, season: int, episode: int, votes: int, score: real)

  const TAB := '\t'

  // ---------- numbers ----------

  function WithoutUnderscores(s: string): string {
    if s == [] then [] else (if s[0] == '_' then [] else [s[0]]) + WithoutUnderscores(s[1..])
  }

  /** Digits with single underscores between them, as Python's int and float accept. */
  predicate Grouped(s: string) {
    && s != [] && IsDigit(s[0]) && IsDigit(s[|s| - 1])
    && (forall c <- s :: IsDigit(c) || c == '_')
    && forall i :: 0 <= i < |s| - 1 ==> s[i] != '_' || s[i + 1] != '_'
  }

  function GroupedNumber(s: string): nat
    requires Grouped(s)
  {
    OnlyDigitsLeft(s);
    Number(WithoutUnderscores(s))
  }

  lemma OnlyDigitsLeft(s: string)
    requires Grouped(s)
    ensures IsDigits(WithoutUnderscores(s))
  {
    KeepsDigits(s);
    assert s == [s[0]] + s[1..];
  }

  lemma {:induction false} KeepsDigits(s: string)
    requires forall c <- s :: IsDigit(c) || c == '_'
    ensures forall c <- WithoutUnderscores(s) :: IsDigit(c)
    ensures (forall c <- s :: IsDigit(c)) ==> WithoutUnderscores(s) == s
  {
    if s != [] {
      KeepsDigits(s[1..]);
      assert s == [s[0]] + s[1..];
      assert s[0] in s && forall c <- s[1..] :: c in s;
    }
  }

  /** An optional sign, and the rest. */
  function Sign(s: string): (bool, string) {
    if s != [] && s[0] == '-' then (true, s[1..])
    else if s != [] && s[0] == '+' then (false, s[1..])
    else (false, s)
  }

  function ParseInt(s: string): Option<int> {
    var (negative, digits) := Sign(Trim(s));
    if !Grouped(digits) then None
    else
      var n: int := GroupedNumber(digits);
      Some(if negative then -n else n)
  }

  function Power10(n: nat): nat
    ensures Power10(n) > 0
  {
    if n == 0 then 1 else 10 * Power10(n - 1)
  }

  function Until(s: string, c: char): nat
    ensures Until(s, c) <= |s|
    ensures forall i :: 0 <= i < Until(s, c) ==> s[i] != c
    ensures Until(s, c) < |s| ==> s[Until(s, c)] == c
  {
    if s == [] || s[0] == c then 0 else 1 + Until(s[1..], c)
  }

  /** The value of `whole.fraction`. */
  function Fixed(whole: string, fraction: string): real
    requires IsDigits(whole) && IsDigits(fraction)
  {
    Number(whole) as real + Number(fraction) as real / Power10(|fraction|) as real
  }

  /** A plain decimal number: digits, and optionally a point and more digits. */
  function ParseDecimal(s: string): Option<real> {
    var (negative, digits) := Sign(Trim(s));
    var point := Until(digits, '.');
    var whole, fraction := digits[..point], if point < |digits| then digits[point + 1..] else "0";
    if !IsDigits(whole) || !IsDigits(fraction) then None
    else Some(if negative then -Fixed(whole, fraction) else Fixed(whole, fraction))
  }

  // ---------- fields ----------

  function Split(s: string): seq<string>
    ensures Split(s) != []
    decreases |s|
  {
    var tab := Until(s, TAB);
    if tab == |s| then [s] else [s[..tab]] + Split(s[tab + 1..])
  }

  function ParseLine(line: string): Option<Candidate> {
    ParseFields(Split(line))
  }

  function ParseFields(parts: seq<string>): Option<Candidate> {
    if |parts| < 6 then None
    else
      var parent, id := Trim(parts[0]), Trim(parts[1]);
      var season, episode, votes := ParseInt(parts[2]), ParseInt(parts[3]), ParseInt(parts[4]);
      var score := ParseDecimal(parts[5]);
      if || !ImdbTitleId(parent) || !ImdbTitleId(id)
         || season.None? || episode.None? || season.value < 1 || episode.value < 1
         || votes.None? || votes.value < 0
         || score.None? || score.value <= 0.0
      then None
      else Some(Candidate(parent, id, season.value, episode.value, votes.value, score.value))
  }

  /**
   A line is valid exactly when it has six fields or more, of which the first two are title ids,
   the next three whole numbers that can be a season, an episode and votes, and the last a score
   above zero; the entry is what they say.
   */
  lemma ValidMeans(parts: seq<string>, e: Candidate)
    ensures ParseFields(parts) == Some(e) <==>
              && |parts| > 5
              && e.parent == Trim(parts[0]) && e.id == Trim(parts[1]) && ImdbTitleId(e.parent) && ImdbTitleId(e.id)
              && ParseInt(parts[2]) == Some(e.season) && ParseInt(parts[3]) == Some(e.episode)
              && ParseInt(parts[4]) == Some(e.votes) && ParseDecimal(parts[5]) == Some(e.score)
              && e.season > 0 && e.episode > 0 && 0 <= e.votes && 0.0 < e.score
  {
    hide Trim, ImdbTitleId, ParseInt, ParseDecimal;
  }

  /** Whatever is read could have been written, as far as its score is in tenths. */
  lemma ReadableIsWritable(parts: seq<string>, tenths: nat)
    ensures match ParseFields(parts)
            case None => true
            case Some(e) => Writable(Row(e.parent, e.id, e.season, e.episode, e.votes, tenths))
  {
    hide Trim, ImdbTitleId, ParseInt, ParseDecimal;
  }

  // ---------- the writer's format ----------

  function TenthsText(tenths: nat): string {
    Digits(tenths / 10) + "." + Digits(tenths % 10)
  }

  ghost predicate Writable(r: Row) {
    ImdbTitleId(r.parent) && ImdbTitleId(r.id) && r.season >= 1 && r.episode >= 1 && r.votes >= 0
  }

  function Join(parts: seq<string>): string
    requires parts != []
  {
    if |parts| == 1 then parts[0] else parts[0] + [TAB] + Join(parts[1..])
  }

  function FieldsOf(r: Row): seq<string>
    requires Writable(r)
  {
    [r.parent, r.id, Digits(r.season), Digits(r.episode), Digits(r.votes), TenthsText(r.tenths)]
  }

  function FormatLine(r: Row): string
    requires Writable(r)
  {
    Join(FieldsOf(r))
  }

  ghost function Parsed(r: Row): Candidate {
    Candidate(r.parent, r.id, r.season, r.episode, r.votes, r.tenths as real / 10.0)
  }

  // ---------- reading back ----------

  /** Neither a separator nor a space occurs in the text. */
  ghost predicate Plain(s: string) {
    forall c <- s :: !IsSpace(c)
  }

  lemma SplitPlain(field: string, rest: string)
    requires Plain(field)
    ensures Split(field + [TAB] + rest) == [field] + Split(rest)
  {
    var s := field + [TAB] + rest;
    assert forall i :: 0 <= i < |field| ==> s[i] == field[i] && field[i] in field;
    UntilAt(s, TAB, |field|);
    assert s[..|field|] == field && s[|field| + 1..] == rest;
  }

  lemma SplitLast(field: string)
    requires Plain(field)
    ensures Split(field) == [field]
  {
    assert forall i :: 0 <= i < |field| ==> field[i] in field;
    UntilEnd(field, TAB);
  }

  lemma UntilAt(s: string, c: char, n: nat)
    requires n < |s| && s[n] == c && forall i :: 0 <= i < n ==> s[i] != c
    ensures Until(s, c) == n
  {}

  lemma UntilEnd(s: string, c: char)
    requires forall i :: 0 <= i < |s| ==> s[i] != c
    ensures Until(s, c) == |s|
  {}

  lemma PlainTrim(s: string)
    requires Plain(s)
    ensures Trim(s) == s
  {
    assert s != [] ==> s[0] in s && s[|s| - 1] in s;
  }

  lemma DigitsArePlain(s: string)
    requires IsDigits(s)
    ensures Plain(s)
  {}

  lemma TitleIdIsPlain(s: string)
    requires ImdbTitleId(s)
    ensures Plain(s)
  {
    assert s == s[..2] + s[2..];
    forall c | c in s
      ensures !IsSpace(c)
    {
      assert c in s[..2] || c in s[2..];
    }
  }

  /** A plain numeral has no sign, no underscores and no spaces around it. */
  lemma PlainNumeral(s: string)
    requires IsDigits(s)
    ensures Trim(s) == s && Sign(s) == (false, s)
    ensures Grouped(s) && WithoutUnderscores(s) == s
  {
    hide Number, GroupedNumber;
    DigitsArePlain(s);
    PlainTrim(s);
    assert s[0] in s && s[|s| - 1] in s;
    hide Trim;
    DigitsAreGrouped(s);
    KeepsDigits(s);
  }

  lemma DigitsAreGrouped(s: string)
    requires IsDigits(s)
    ensures Grouped(s)
  {
    assert s[0] in s && s[|s| - 1] in s;
    forall i | 0 <= i < |s|
      ensures IsDigit(s[i])
    {
      assert s[i] in s;
    }
  }

  lemma WithoutNext(s: string)
    requires s != []
    ensures WithoutUnderscores(s) == (if s[0] == '_' then [] else [s[0]]) + WithoutUnderscores(s[1..])
  {}

  lemma {:induction false} WithoutUnderscoresOf(s: string, t: string)
    ensures WithoutUnderscores(s + t) == WithoutUnderscores(s) + WithoutUnderscores(t)
  {
    if s == [] {
      assert s + t == t;
    } else {
      hide WithoutUnderscores;
      var head := if s[0] == '_' then [] else [s[0]];
      WithoutNext(s);
      WithoutNext(s + t);
      assert (s + t)[1..] == s[1..] + t;
      WithoutUnderscoresOf(s[1..], t);
      Associative(head, WithoutUnderscores(s[1..]), WithoutUnderscores(t));
    }
  }

  lemma Associative<T>(a: seq<T>, b: seq<T>, c: seq<T>)
    ensures (a + b) + c == a + (b + c)
  {}

  lemma TrimmedNumeral(s: string)
    requires s != "" && !IsSpace(s[0]) && !IsSpace(s[|s| - 1])
    ensures Trim(s) == s
  {}

  /** A number read from a text that is a sign and digits. */
  lemma ParseIntFrom(s: string, negative: bool, a: string)
    requires Trim(s) == s && Sign(s) == (negative, a) && Grouped(a)
    ensures var n: int := GroupedNumber(a); ParseInt(s) == Some(if negative then -n else n)
  {
    hide Trim, Sign, Grouped, WithoutUnderscores, Number;
  }

  lemma DecimalOfDigits(s: string, negative: bool, a: string)
    requires Trim(s) == s && Sign(s) == (negative, a) && IsDigits(a)
    ensures ParseDecimal(s) == Some(if negative then -Fixed(a, "0") else Fixed(a, "0"))
  {
    assert forall i :: 0 <= i < |a| ==> a[i] in a;
    UntilEnd(a, '.');
    assert a[..|a|] == a;
    hide Trim, Sign, Fixed, Until;
  }

  lemma WithSign(c: char, a: string)
    requires IsDigits(a) && (c == '+' || c == '-')
    ensures Trim([c] + a) == [c] + a && Sign([c] + a) == (c == '-', a)
  {
    assert a[|a| - 1] in a;
    TrimmedNumeral([c] + a);
    assert ([c] + a)[1..] == a;
  }

  /** A sign may stand before a number. */
  lemma SignedInt(c: char, a: string)
    requires IsDigits(a) && (c == '+' || c == '-')
    ensures var n: int := Number(a); ParseInt(a) == Some(n) && ParseInt([c] + a) == Some(if c == '-' then -n else n)
  {
    PlainNumeral(a);
    assert GroupedNumber(a) == Number(a);
    WithSign(c, a);
    hide *;
    ParseIntFrom(a, false, a);
    ParseIntFrom([c] + a, c == '-', a);
  }

  lemma SignedDecimal(c: char, a: string)
    requires IsDigits(a) && (c == '+' || c == '-')
    ensures ParseDecimal(a).Some?
    ensures ParseDecimal([c] + a) == Some(if c == '-' then -ParseDecimal(a).value else ParseDecimal(a).value)
  {
    PlainNumeral(a);
    WithSign(c, a);
    hide *;
    DecimalOfDigits(a, false, a);
    DecimalOfDigits([c] + a, c == '-', a);
  }

  lemma DigitAt(a: string, i: nat)
    requires IsDigits(a) && i < |a|
    ensures IsDigit(a[i]) && a[i] != '_' && !IsSpace(a[i])
  {
    assert a[i] in a;
  }

  lemma DropsUnderscore(a: string, b: string)
    requires IsDigits(a) && IsDigits(b)
    ensures WithoutUnderscores(a + "_" + b) == a + b
  {
    KeepsDigits(a);
    KeepsDigits(b);
    assert WithoutUnderscores("_") == "";
    WithoutUnderscoresOf(a + "_", b);
    WithoutUnderscoresOf(a, "_");
    assert a + "" == a;
  }

  lemma Unsigned(s: string)
    requires s != "" && IsDigit(s[0]) && IsDigit(s[|s| - 1])
    ensures Trim(s) == s && Sign(s) == (false, s)
  {
    TrimmedNumeral(s);
  }

  /** Underscores may stand between digits, one at a time. */
  lemma SeparatedNumber(a: string, b: string)
    requires IsDigits(a) && IsDigits(b)
    ensures IsDigits(a + b) && ParseInt(a + "_" + b) == Some(Number(a + b)) && ParseInt(a + "__" + b).None?
  {
    var s, t := a + "_" + b, a + "__" + b;
    DropsUnderscore(a, b);
    OneUnderscore(a, b);
    DigitAt(a, 0);
    DigitAt(b, |b| - 1);
    Unsigned(s);
    Unsigned(t);
    assert t[|a|] == '_' && t[|a| + 1] == '_' && !Grouped(t);
    assert forall c <- a + b :: IsDigit(c);
    hide Trim, Sign, Grouped, WithoutUnderscores, Number, IsDigits;
    ParseIntFrom(s, false, s);
  }

  lemma OneUnderscore(a: string, b: string)
    requires IsDigits(a) && IsDigits(b)
    ensures Grouped(a + "_" + b)
  {
    var s := a + "_" + b;
    DigitAt(a, 0);
    DigitAt(b, |b| - 1);
    forall i | 0 <= i < |s| - 1
      ensures s[i] != '_' || s[i + 1] != '_'
    {
      if i == |a| {
        DigitAt(b, 0);
      } else if i < |a| {
        DigitAt(a, i);
      } else {
        DigitAt(b, i - |a| - 1);
      }
    }
  }

  /** At either end there is none. */
  lemma NoUnderscoreAtTheEnds(a: string)
    requires IsDigits(a)
    ensures ParseInt("_" + a).None? && ParseInt(a + "_").None?
  {
    DigitAt(a, 0);
    DigitAt(a, |a| - 1);
    TrimmedNumeral("_" + a);
    TrimmedNumeral(a + "_");
    hide Trim, Number, WithoutUnderscores;
  }

  lemma ParseIntOfDigits(n: nat)
    ensures ParseInt(Digits(n)) == Some(n)
  {
    NumberOfDigits(n);
    PlainNumeral(Digits(n));
    hide Digits, Number, IsDigits, Grouped, WithoutUnderscores, Trim, Sign;
  }

  lemma ParseDecimalOf(whole: string, fraction: string)
    requires IsDigits(whole) && IsDigits(fraction)
    ensures ParseDecimal(whole + "." + fraction) == Some(Fixed(whole, fraction))
    ensures Plain(whole + "." + fraction)
  {
    hide Fixed, Trim, ParseDecimal, Until;
    var s := whole + "." + fraction;
    DigitsArePlain(whole);
    DigitsArePlain(fraction);
    PlainTrim(s);
    assert whole[0] in whole && s[0] == whole[0];
    assert Sign(s) == (false, s);
    assert forall i :: 0 <= i < |whole| ==> s[i] == whole[i] && whole[i] in whole;
    UntilAt(s, '.', |whole|);
    assert s[..|whole|] == whole && s[|whole| + 1..] == fraction;
    DecimalFrom(s, whole, fraction);
  }

  lemma DecimalFrom(s: string, whole: string, fraction: string)
    requires Trim(s) == s && Sign(s) == (false, s) && Until(s, '.') == |whole| < |s|
    requires s[..|whole|] == whole && s[|whole| + 1..] == fraction && IsDigits(whole) && IsDigits(fraction)
    ensures ParseDecimal(s) == Some(Fixed(whole, fraction))
  {
    hide Fixed, Trim, Sign, Until, IsDigits;
  }

  lemma ParseDecimalOfTenths(tenths: nat)
    ensures ParseDecimal(TenthsText(tenths)) == Some(tenths as real / 10.0)
    ensures Plain(TenthsText(tenths))
  {
    hide ParseDecimal, Plain, Fixed, Number;
    var whole, fraction := Digits(tenths / 10), Digits(tenths % 10);
    assert |fraction| == 1;
    NumberOfDigits(tenths / 10);
    NumberOfDigits(tenths % 10);
    ParseDecimalOf(whole, fraction);
    TenthsValue(tenths, whole, fraction);
  }

  lemma TenthsValue(tenths: nat, whole: string, fraction: string)
    requires IsDigits(whole) && IsDigits(fraction) && |fraction| == 1
    requires Number(whole) == tenths / 10 && Number(fraction) == tenths % 10
    ensures Fixed(whole, fraction) == tenths as real / 10.0
  {
    hide Number, IsDigits;
    assert Power10(1) == 10 * Power10(0) == 10;
    var w, f := tenths / 10, tenths % 10;
    assert tenths == 10 * w + f;
    assert tenths as real / 10.0 == w as real + f as real / 10.0;
  }

  /** Neither kind of line end occurs in the text. */
  ghost predicate Unbroken(s: string) {
    '\n' !in s && '\r' !in s
  }

  lemma {:induction false} SplitJoin(parts: seq<string>)
    requires parts != [] && forall part <- parts :: Plain(part)
    ensures Split(Join(parts)) == parts && Unbroken(Join(parts))
  {
    if |parts| == 1 {
      SplitLast(parts[0]);
    } else {
      SplitJoin(parts[1..]);
      SplitPlain(parts[0], Join(parts[1..]));
    }
  }

  lemma FieldsArePlain(r: Row)
    requires Writable(r)
    ensures forall part <- FieldsOf(r) :: Plain(part)
  {
    NumberOfDigits(r.season);
    NumberOfDigits(r.episode);
    NumberOfDigits(r.votes);
    DigitsArePlain(Digits(r.season));
    DigitsArePlain(Digits(r.episode));
    DigitsArePlain(Digits(r.votes));
    TitleIdIsPlain(r.parent);
    TitleIdIsPlain(r.id);
    ParseDecimalOfTenths(r.tenths);
    hide Digits, TenthsText, Plain, ImdbTitleId, IsDigits;
  }

  /** Reading a written line gives back the row, unless its score was rounded to 0.0: such a line is not read. */
  lemma LineRoundTrip(r: Row)
    requires Writable(r)
    ensures ParseLine(FormatLine(r)) == if r.tenths >= 1 then Some(Parsed(r)) else None
    ensures Unbroken(FormatLine(r))
  {
    hide Split, Digits, TenthsText, Trim, ParseInt, ParseDecimal, ImdbTitleId, Plain, Unbroken, Join;
    ParseIntOfDigits(r.season);
    ParseIntOfDigits(r.episode);
    ParseIntOfDigits(r.votes);
    ParseDecimalOfTenths(r.tenths);
    FieldsArePlain(r);
    SplitJoin(FieldsOf(r));
    TitleIdIsPlain(r.parent);
    TitleIdIsPlain(r.id);
    PlainTrim(r.parent);
    PlainTrim(r.id);
    assert r.tenths as real / 10.0 > 0.0 <==> r.tenths >= 1;
  }
}
