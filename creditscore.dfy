/** A credit score the user records: the date it was received, who reported
    it, the score, the bureau behind it and whether it is a FICO score. Its
    display texts are blank for a score that has no date yet. */
module CreditScores {
  import opened Seqs
  import opened Text
  import opened Calendar

  /** The credit bureaus. */
  datatype Provider = TransUnion | Experian | Equifax

  /** Enum.ToString of a bureau: its member name. */
  function ProviderName(p: Provider): string
  {
    match p
    case TransUnion => "TransUnion"
    case Experian => "Experian"
    case Equifax => "Equifax"
  }

  /** Every bureau has a non-empty name of its own. */
  lemma ProviderNameInjective(p: Provider, q: Provider)
    ensures ProviderName(p) != ""
    ensures ProviderName(p) == ProviderName(q) ==> p == q
  {
    assert ProviderName(TransUnion)[0] == 'T';
    assert ProviderName(Experian)[1] == 'x' && ProviderName(Equifax)[1] == 'q';
  }

  datatype CreditScore = CreditScore(date: Date, source: string, score: int, provider: Provider, fico: bool)

  /** The date as "yyyy/MM/dd", or "" while the date is the minimum value. */
  function DateToString(c: CreditScore): string
    requires Valid(c.date)
  {
    if c.date != MinValue then FormatDate(c.date) else ""
  }

  /** The bureau's name, or "" while the date is the minimum value. */
  function ProviderToString(c: CreditScore): string
  {
    if c.date != MinValue then ProviderName(c.provider) else ""
  }

  /** "FICO" or "Not FICO", or "" while the date is the minimum value. */
  function FICOToString(c: CreditScore): string
  {
    if c.date != MinValue then (if c.fico then "FICO" else "Not FICO") else ""
  }

  /** Each helper text is blank exactly when the score has no date. */
  lemma BlankIffNoDate(c: CreditScore)
    requires Valid(c.date)
    ensures DateToString(c) == "" <==> c.date == MinValue
    ensures ProviderToString(c) == "" <==> c.date == MinValue
    ensures FICOToString(c) == "" <==> c.date == MinValue
  {
    ProviderNameInjective(c.provider, c.provider);
  }

  /** A dated score's texts determine its date, bureau and FICO flag, and the
      date texts sort as the dates do. */
  lemma TextsReadBack(a: CreditScore, b: CreditScore)
    requires Valid(a.date) && Valid(b.date) && a.date != MinValue && b.date != MinValue
    ensures DateToString(a) == DateToString(b) <==> a.date == b.date
    ensures StrLe(DateToString(a), DateToString(b)) <==> AtMost(a.date, b.date)
    ensures ProviderToString(a) == ProviderToString(b) <==> a.provider == b.provider
    ensures FICOToString(a) == FICOToString(b) <==> a.fico == b.fico
  {
    if DateToString(a) == DateToString(b) {
      FormatDateInjective(a.date, b.date);
    }
    FormatDateOrder(a.date, b.date);
    ProviderNameInjective(a.provider, b.provider);
    assert "FICO"[0] != "Not FICO"[0];
  }

  /** Equality of two possibly missing scores: two missing ones are equal, a
      missing one equals no present one, and present ones compare every field,
      the source ignoring case. */
  predicate ScoreEquals(left: Option<CreditScore>, right: Option<CreditScore>)
  {
    if left.None? && right.None? then true
    else if left.None? != right.None? then false
    else
      var l, r := left.value, right.value;
      l.date == r.date && EqualsIgnoreCase(l.source, r.source) && l.score == r.score &&
      l.provider == r.provider && l.fico == r.fico
  }

  /** The score with its source lower-cased: two scores are equal exactly when
      these agree. */
  function Normalized(c: CreditScore): CreditScore
  {
    c.(source := ToLower(c.source))
  }

  /** Score equality is an equivalence relation; on present scores it is
      equality after normalising the source's case, so it never tells apart
      scores that differ only in that. */
  lemma ScoreEqualsSpec(a: Option<CreditScore>, b: Option<CreditScore>, c: Option<CreditScore>)
    ensures ScoreEquals(None, None)
    ensures a.Some? ==> !ScoreEquals(a, None) && !ScoreEquals(None, a)
    ensures a.Some? && b.Some? ==> (ScoreEquals(a, b) <==> Normalized(a.value) == Normalized(b.value))
    ensures ScoreEquals(a, a)
    ensures ScoreEquals(a, b) ==> ScoreEquals(b, a)
    ensures ScoreEquals(a, b) && ScoreEquals(b, c) ==> ScoreEquals(a, c)
  {
  }

  /** Lower-casing the source keeps a score equal to the original. */
  lemma CaseOfSourceIgnored(c: CreditScore)
    ensures ScoreEquals(Some(c), Some(Normalized(c)))
  {
    ToLowerIdempotent(c.source);
  }

  /** The copy constructor: a score with every field of other. */
  function Copy(other: CreditScore): CreditScore
  {
    CreditScore(other.date, other.source, other.score, other.provider, other.fico)
  }

  /** A copy equals its original, and so does everything equal to it. */
  lemma CopyEqualsOriginal(c: CreditScore, d: CreditScore)
    ensures ScoreEquals(Some(Copy(c)), Some(c))
    ensures ScoreEquals(Some(c), Some(d)) <==> ScoreEquals(Some(Copy(c)), Some(d))
  {
  }

  /** "<date> - <source> - <score>". */
  function ToString(c: CreditScore): string
    requires Valid(c.date)
  {
    DateToString(c) + " - " + c.source + " - " + IntToString(c.score)
  }

  /** The text starts with the date text and ends with the score's numeral; for
      a dated score the first ten characters read back the date. */
  lemma ToStringParts(c: CreditScore, d: CreditScore)
    requires Valid(c.date) && Valid(d.date)
    ensures var r := ToString(c); var n := IntToString(c.score);
      |r| == |DateToString(c)| + 6 + |c.source| + |n| &&
      r[..|DateToString(c)|] == DateToString(c) && r[|r| - |n|..] == n
    ensures c.date != MinValue && d.date != MinValue && ToString(c)[..10] == ToString(d)[..10] ==> c.date == d.date
  {
    var r := ToString(c);
    var n := IntToString(c.score);
    assert r == DateToString(c) + (" - " + c.source + " - ") + n;
    if c.date != MinValue && d.date != MinValue && ToString(c)[..10] == ToString(d)[..10] {
      assert ToString(c)[..10] == FormatDate(c.date);
      assert ToString(d)[..10] == FormatDate(d.date);
      FormatDateInjective(c.date, d.date);
    }
  }
}
