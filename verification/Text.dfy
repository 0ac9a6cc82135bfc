/** Strings as the services treat them: trimming, case folding, enum names and decimal ids. */
module Text {
  import opened Domain

  /** The white space that String.prototype.trim removes. */
  predicate IsSpace(c: char) {
    || c == ' ' || '\t' <= c <= '\r' || c == '\U{A0}' || c == '\U{1680}' || '\U{2000}' <= c <= '\U{200A}'
    || c == '\U{2028}' || c == '\U{2029}' || c == '\U{202F}' || c == '\U{205F}' || c == '\U{3000}' || c == '\U{FEFF}'
  }

  function TrimStart(s: string): string {
    if s != "" && IsSpace(s[0]) then TrimStart(s[1..]) else s
  }

  function TrimEnd(s: string): string {
    if s != "" && IsSpace(s[|s| - 1]) then TrimEnd(s[..|s| - 1]) else s
  }

  function Trim(s: string): string {
    TrimEnd(TrimStart(s))
  }

  function LowerChar(c: char): char {
    if 'A' <= c <= 'Z' then c + 32 as char else c
  }

  /** Each letter from A to Z becomes the one 32 code points higher; everything else stays. */
  function Lower(s: string): (r: string)
    ensures |r| == |s|
    ensures forall i | 0 <= i < |s| :: r[i] == if 'A' <= s[i] <= 'Z' then s[i] + 32 as char else s[i]
  {
    seq(|s|, i requires 0 <= i < |s| => LowerChar(s[i]))
  }

  function TypeName(k: OpportunityType): string {
    match k
    case Dev => "dev"
    case Qa => "qa"
    case Design => "design"
    case Ai => "ai"
    case DataScience => "datascience"
  }

  function ParseType(s: string): (r: Option<OpportunityType>)
    ensures forall k :: r == Some(k) <==> s == TypeName(k)
  {
    if s == "dev" then Some(Dev)
    else if s == "qa" then Some(Qa)
    else if s == "design" then Some(Design)
    else if s == "ai" then Some(Ai)
    else if s == "datascience" then Some(DataScience)
    else None
  }

  /** A value that neither starts nor ends with white space. */
  predicate Trimmed(s: string) {
    s != "" ==> !IsSpace(s[0]) && !IsSpace(s[|s| - 1])
  }

  predicate AllSpace(s: string) {
    forall i | 0 <= i < |s| :: IsSpace(s[i])
  }

  lemma {:induction false} TrimStartTrims(s: string)
    ensures TrimStart(s) != "" ==> !IsSpace(TrimStart(s)[0])
    ensures |TrimStart(s)| <= |s| && s[|s| - |TrimStart(s)|..] == TrimStart(s)
    ensures AllSpace(s[..|s| - |TrimStart(s)|])
  {
    if s != "" && IsSpace(s[0]) {
      TrimStartTrims(s[1..]);
      var n := |s| - |TrimStart(s)|;
      assert s[..n] == [s[0]] + s[1..][..n - 1];
    }
  }

  lemma {:induction false} TrimEndTrims(s: string)
    requires s != "" ==> !IsSpace(s[0])
    ensures Trimmed(TrimEnd(s)) && TrimEnd(s) <= s && AllSpace(s[|TrimEnd(s)|..])
  {
    if s != "" && IsSpace(s[|s| - 1]) {
      var n := |s| - 1;
      TrimEndTrims(s[..n]);
      var k := |TrimEnd(s)|;
      assert s[k..] == s[..n][k..] + [s[n]];
    }
  }

  /** Trimming removes white space from both ends, all of it, and nothing else. */
  lemma TrimTrims(s: string) returns (before: string, after: string)
    ensures Trimmed(Trim(s)) && Trim(Trim(s)) == Trim(s)
    ensures s == before + Trim(s) + after && AllSpace(before) && AllSpace(after)
  {
    hide IsSpace, AllSpace, TrimStart, TrimEnd;
    var middle, core := TrimStart(s), TrimEnd(TrimStart(s));
    TrimStartTrims(s);
    TrimEndTrims(middle);
    TrimOfTrimmed(core);
    before, after := s[..|s| - |middle|], middle[|core|..];
    hide Trimmed;
    assert s == before + middle by {
      assert s == s[..|s| - |middle|] + s[|s| - |middle|..];
    }
    assert middle == core + after;
  }

  lemma TrimOfTrimmed(s: string)
    requires Trimmed(s)
    ensures Trim(s) == s
  {
  }

  lemma {:induction false} TrimPadded(before: string, s: string, after: string)
    requires AllSpace(before) && AllSpace(after) && s != "" && Trimmed(s)
    ensures Trim(before + s + after) == s
    decreases |before| + |after|
  {
    var all := before + s + after;
    if before != "" {
      assert all[1..] == before[1..] + s + after && all[0] == before[0];
      TrimPadded(before[1..], s, after);
    } else if after != "" {
      var n := |all| - 1;
      assert all[..n] == before + s + after[..|after| - 1] && all[n] == after[|after| - 1];
      assert TrimStart(all) == all && TrimStart(all[..n]) == all[..n];
      TrimPadded(before, s, after[..|after| - 1]);
    } else {
      assert all == s;
      TrimOfTrimmed(s);
    }
  }

  lemma ParsesItsName(k: OpportunityType)
    ensures ParseType(Trim(TypeName(k))) == Some(k)
  {
    TrimOfTrimmed(TypeName(k));
  }

  predicate IsDigit(c: char) {
    '0' <= c <= '9'
  }

  /** A non-empty string of digits. */
  predicate AllDigits(s: string) {
    s != "" && forall i | 0 <= i < |s| :: IsDigit(s[i])
  }

  function DigitChar(d: nat): char
    requires d < 10
  {
    '0' + d as char
  }

  function DigitValue(c: char): nat
    requires IsDigit(c)
  {
    (c - '0') as nat
  }

  /** An id as decimal text, without leading zeros. */
  function Decimal(n: nat): string {
    if n < 10 then [DigitChar(n)] else Decimal(n / 10) + [DigitChar(n % 10)]
  }

  /** The value of decimal text, leading zeros allowed. */
  function ParseDecimal(s: string): nat
    requires AllDigits(s)
  {
    var last := DigitValue(s[|s| - 1]);
    if |s| == 1 then last else 10 * ParseDecimal(s[..|s| - 1]) + last
  }

  /** Writing an id as text and reading it back gives the id. */
  lemma {:induction false} DecimalRoundTrip(n: nat)
    ensures AllDigits(Decimal(n)) && ParseDecimal(Decimal(n)) == n
  {
    if n >= 10 {
      DecimalRoundTrip(n / 10);
      var s := Decimal(n);
      assert s[..|s| - 1] == Decimal(n / 10);
    }
  }

  lemma DecimalInjective(m: nat, n: nat)
    requires Decimal(m) == Decimal(n)
    ensures m == n
  {
    DecimalRoundTrip(m);
    DecimalRoundTrip(n);
  }
}
