/**
 * `find_reading_age` and `translate_reading_age`: from a site's text-analysis
 * results to an approximate reading age.
 */
module ReadingAge {
  import opened Wrappers

  /** Text-analysis output of one site: extraction method -> mode -> grade label. */
  type LanguageData = map<string, map<string, string>>

  /** The label the analyser gives a page without readable text. */
  const NoReadableContent: string := "-1th and 0th grade"

  /** `language_data[extractor]['standard']`, or `None` when either key is missing. */
  function StandardLabel(languageData: LanguageData, extractor: string): Option<string> {
    if extractor in languageData && "standard" in languageData[extractor]
    then Some(languageData[extractor]["standard"])
    else None
  }

  /**
   * `find_reading_age`: the dragnet label, falling back to the trafilatura
   * label only when dragnet has none; the no-readable-content label is `None`.
   */
  function FindReadingAge(languageData: LanguageData): (r: Option<string>)
    ensures r != Some(NoReadableContent)
    ensures StandardLabel(languageData, "dragnet").Some? ==>
              r == (if StandardLabel(languageData, "dragnet") == Some(NoReadableContent) then None
                    else StandardLabel(languageData, "dragnet"))
    ensures StandardLabel(languageData, "dragnet").None? ==>
              r == (if StandardLabel(languageData, "trafilatura") == Some(NoReadableContent) then None
                    else StandardLabel(languageData, "trafilatura"))
  {
    var dragnet := StandardLabel(languageData, "dragnet");
    var text := if dragnet.Some? then dragnet else StandardLabel(languageData, "trafilatura");
    if text == Some(NoReadableContent) then None else text
  }

  predicate IsDigit(c: char) {
    '0' <= c <= '9'
  }

  /** The digits at the start of `s`, as many as there are. */
  function LeadingDigits(s: string): (ds: string)
    ensures |ds| <= |s| && ds == s[..|ds|]
    ensures forall k :: 0 <= k < |ds| ==> IsDigit(ds[k])
    ensures |ds| == |s| || !IsDigit(s[|ds|])
  {
    if s != [] && IsDigit(s[0]) then [s[0]] + LeadingDigits(s[1..]) else []
  }

  /** Where the leftmost digit of `s` stands, or `|s|` when it has none. */
  function FirstDigitAt(s: string): (i: nat)
    ensures i <= |s|
    ensures forall k :: 0 <= k < i ==> !IsDigit(s[k])
    ensures i < |s| ==> IsDigit(s[i])
  {
    if s == [] || IsDigit(s[0]) then 0 else 1 + FirstDigitAt(s[1..])
  }

  /**
   * What `re.search(r'\d+', s)` matches: the run of digits that starts at the
   * leftmost digit and goes on as far as digits go; empty when `s` has no digit.
   */
  function FirstDigits(s: string): (ds: string)
    ensures ds == [] <==> forall k :: 0 <= k < |s| ==> !IsDigit(s[k])
    ensures forall k :: 0 <= k < |ds| ==> IsDigit(ds[k])
    ensures FirstDigitAt(s) + |ds| <= |s| && ds == s[FirstDigitAt(s)..FirstDigitAt(s) + |ds|]
    ensures FirstDigitAt(s) + |ds| == |s| || !IsDigit(s[FirstDigitAt(s) + |ds|])
  {
    LeadingDigits(s[FirstDigitAt(s)..])
  }

  function DigitValue(c: char): nat
    requires IsDigit(c)
  {
    (c as int) - ('0' as int)
  }

  /** `int(ds)` for a string of decimal digits (leading zeros allowed). */
  function DecimalValue(ds: string): nat
    requires forall k :: 0 <= k < |ds| ==> IsDigit(ds[k])
  {
    if ds == [] then 0 else 10 * DecimalValue(ds[..|ds| - 1]) + DigitValue(ds[|ds| - 1])
  }

  /** The grade number in a label: the value of its first run of digits, if it has one. */
  function Grade(text: Option<string>): Option<nat> {
    match text
    case None => None
    case Some(s) =>
      var ds := FirstDigits(s);
      if ds == [] then None else Some(DecimalValue(ds))
  }

  /** The age for a grade as `translate_reading_age` computes it: grade 13 gets none. */
  function AgeOfGrade(grade: nat): (age: Option<int>)
    ensures age.Some? <==> 0 < grade && grade != 13
    ensures age.Some? ==> 6 <= age.value <= 18
    ensures 0 < grade < 13 ==> age == Some(grade + 5)
    ensures grade > 13 ==> age == Some(18)
  {
    if 0 < grade < 13 then Some(grade + 5)
    else if grade > 13 then Some(18)
    else None
  }

  /**
   * `translate_reading_age(label)`, reading its own argument (the source reads
   * the caller's `scores['reading age']`, which holds the same label at its
   * one call).  No label, no digits, grade 0 and grade 13 give `None`.
   */
  function TranslateReadingAge(text: Option<string>): (age: Option<int>)
    ensures age.Some? ==> 6 <= age.value <= 18
    ensures text.None? ==> age.None?
    ensures age.Some? <==> Grade(text).Some? && Grade(text).value != 0 && Grade(text).value != 13
  {
    match Grade(text)
    case None => None
    case Some(g) => AgeOfGrade(g)
  }

  /** The age the evidently intended rule gives: every grade above 12 caps at 18. */
  function CappedAgeOfGrade(grade: nat): (age: Option<int>)
    ensures age.Some? <==> grade > 0
    ensures age.Some? ==> 6 <= age.value <= 18
  {
    if 0 < grade < 13 then Some(grade + 5)
    else if grade >= 13 then Some(18)
    else None
  }

  /** `translate_reading_age` with grade 13 capped like every grade above it. */
  function TranslateReadingAgeCapped(text: Option<string>): (age: Option<int>)
    ensures age.Some? <==> Grade(text).Some? && Grade(text).value > 0
    ensures Grade(text).Some? && Grade(text).value != 13 ==> age == TranslateReadingAge(text)
  {
    match Grade(text)
    case None => None
    case Some(g) => CappedAgeOfGrade(g)
  }

  /** With the cap, a higher grade never gives a lower reading age, and every positive grade gives one. */
  lemma CappedAgeMonotone(lower: nat, higher: nat)
    requires 0 < lower <= higher
    ensures CappedAgeOfGrade(lower).Some? && CappedAgeOfGrade(higher).Some?
    ensures CappedAgeOfGrade(lower).value <= CappedAgeOfGrade(higher).value
  {
  }

  /** The decimal text of a number, as the analyser writes grades. */
  function DecimalText(n: nat): (s: string)
    ensures s != [] && forall k :: 0 <= k < |s| ==> IsDigit(s[k])
  {
    var last := ['0' + ((n % 10) as char)];
    if n < 10 then last else DecimalText(n / 10) + last
  }

  lemma {:induction false} DecimalTextValue(n: nat)
    ensures DecimalValue(DecimalText(n)) == n
  {
    var s := DecimalText(n);
    if n >= 10 {
      DecimalTextValue(n / 10);
      assert s[..|s| - 1] == DecimalText(n / 10);
    }
  }

  lemma {:induction false} LeadingDigitsOfText(ds: string, rest: string)
    requires forall k :: 0 <= k < |ds| ==> IsDigit(ds[k])
    requires rest == [] || !IsDigit(rest[0])
    ensures LeadingDigits(ds + rest) == ds
  {
    if ds != [] {
      LeadingDigitsOfText(ds[1..], rest);
      assert (ds + rest)[1..] == ds[1..] + rest;
    }
  }

  /**
   * A label that starts with a grade number, such as "7th grade" or
   * "14th and 15th grade", is read as that grade.
   */
  lemma GradeOfLabel(n: nat, rest: string)
    requires rest == [] || !IsDigit(rest[0])
    ensures Grade(Some(DecimalText(n) + rest)) == Some(n)
  {
    var s := DecimalText(n) + rest;
    assert IsDigit(s[0]);
    assert FirstDigitAt(s) == 0;
    assert s[0..] == s;
    LeadingDigitsOfText(DecimalText(n), rest);
    DecimalTextValue(n);
  }

  /** Grade 7 reads as age 12. */
  lemma SeventhGradeIsTwelve()
    ensures TranslateReadingAge(Some("7th grade")) == Some(12)
  {
    assert DecimalText(7) == "7";
    assert DecimalText(7) + "th grade" == "7th grade";
    GradeOfLabel(7, "th grade");
  }

  /** Grades above 13 cap at age 18. */
  lemma FourteenthGradeIsCapped()
    ensures TranslateReadingAge(Some("14th and 15th grade")) == Some(18)
  {
    assert DecimalText(14) == "14";
    assert DecimalText(14) + "th and 15th grade" == "14th and 15th grade";
    GradeOfLabel(14, "th and 15th grade");
  }

  /** The no-readable-content label yields no label, even when the fallback extractor has one. */
  lemma NoReadableContentHasNoLabel()
    ensures FindReadingAge(map["dragnet" := map["standard" := NoReadableContent],
                               "trafilatura" := map["standard" := "7th grade"]]) == None
  {
  }

  /**
   * As written, grade 13 falls between the two branches: a label such as
   * "13th and 14th grade" gets no reading age while the same label for the
   * grades on either side gets 17 and 18.  The capped rule gives it 18.
   */
  lemma GradeThirteenDropped(rest: string)
    requires rest == [] || !IsDigit(rest[0])
    ensures TranslateReadingAge(Some("12" + rest)) == Some(17)
    ensures TranslateReadingAge(Some("13" + rest)) == None
    ensures TranslateReadingAge(Some("14" + rest)) == Some(18)
    ensures TranslateReadingAgeCapped(Some("13" + rest)) == Some(18)
  {
    assert DecimalText(12) == "12";
    GradeOfLabel(12, rest);
    assert DecimalText(13) == "13";
    GradeOfLabel(13, rest);
    assert DecimalText(14) == "14";
    GradeOfLabel(14, rest);
  }
}
