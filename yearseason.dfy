/**
 * `GameReader.YearSeason` (GameReader.cs): a turn page path such as
 * "1901/spring" is read with the pattern `(\d+)/(\w+)$` and a season table.
 * `\d` and `\w` are taken to be ASCII; `$` matches at the end of the text or
 * before a final '\n', as .NET's `$` does without RegexOptions.Multiline.
 */
module YearSeasons {
  import opened Wrappers
  import opened Text

  /** The length of the run of word characters starting at `i`. */
  function WordRun(s: string, i: nat): (n: nat)
    requires i <= |s|
    ensures i + n <= |s|
    ensures forall k :: i <= k < i + n ==> IsWordChar(s[k])
    ensures i + n == |s| || !IsWordChar(s[i + n])
    decreases |s| - i
  {
    if i < |s| && IsWordChar(s[i]) then 1 + WordRun(s, i + 1) else 0
  }

  /** The length of the run of digits ending just before `j`. */
  function DigitsBefore(s: string, j: nat): (n: nat)
    requires j <= |s|
    ensures n <= j
    ensures forall k :: j - n <= k < j ==> IsDigit(s[k])
    ensures n == j || !IsDigit(s[j - n - 1])
  {
    if j > 0 && IsDigit(s[j - 1]) then 1 + DigitsBefore(s, j - 1) else 0
  }

  /** `$`: at the end, or just before a final line feed. */
  predicate AtEnd(s: string, e: nat) {
    e == |s| || (e == |s| - 1 && s[e] == '\n')
  }

  /** `(\d+)/(\w+)$` matches `s[i..e]` with its '/' at `j`. */
  predicate MatchesAt(s: string, i: nat, j: nat, e: nat) {
    i < j < e <= |s| && j + 1 < e && s[j] == '/' && AtEnd(s, e)
    && (forall k :: i <= k < j ==> IsDigit(s[k]))
    && (forall k :: j < k < e ==> IsWordChar(s[k]))
  }

  /** `j` holds the last '/' of `s`. */
  predicate LastSlash(s: string, j: nat) {
    j < |s| && s[j] == '/' && forall k :: j < k < |s| ==> s[k] != '/'
  }

  /** A match: start, position of the '/', end. */
  datatype Span = Span(start: nat, slash: nat, end: nat)

  /**
   * `Regex.Match`: the leftmost match. Only the last '/' can be followed by
   * word characters up to the end, so the match starts where the run of
   * digits before that '/' starts.
   */
  function Match(s: string): (r: Option<Span>)
    ensures r == None <==> forall i: nat, j: nat, e: nat :: !MatchesAt(s, i, j, e)
    ensures r != None ==> MatchesAt(s, r.value.start, r.value.slash, r.value.end)
    ensures r != None ==> forall i: nat, j: nat, e: nat :: MatchesAt(s, i, j, e) ==> r.value.start <= i
  {
    match LastIndexOf(s, '/')
    case None =>
      None
    case Some(j) =>
      assert LastSlash(s, j) by {
        forall k | j < k < |s| ensures s[k] != '/' { assert s[k] == s[j + 1..][k - j - 1]; }
      }
      var w := WordRun(s, j + 1);
      var d := DigitsBefore(s, j);
      if w == 0 || !AtEnd(s, j + 1 + w) || d == 0 then
        NoMatchAtLastSlash(s, j);
        None
      else
        MatchAtLastSlash(s, j);
        Some(Span(j - d, j, j + 1 + w))
  }

  /** Without a word run up to the end after the last '/', or a digit before it, nothing matches. */
  lemma NoMatchAtLastSlash(s: string, j: nat)
    requires LastSlash(s, j)
    requires WordRun(s, j + 1) == 0 || !AtEnd(s, j + 1 + WordRun(s, j + 1)) || DigitsBefore(s, j) == 0
    ensures forall i: nat, j': nat, e: nat :: !MatchesAt(s, i, j', e)
  {
    forall i: nat, j': nat, e: nat | MatchesAt(s, i, j', e) ensures false {
      MatchNeedsRuns(s, i, j', e, j);
    }
  }

  /** A match needs word characters up to the end after the last '/', and a digit before it. */
  lemma MatchNeedsRuns(s: string, i: nat, j': nat, e: nat, j: nat)
    requires MatchesAt(s, i, j', e)
    requires LastSlash(s, j)
    ensures WordRun(s, j + 1) > 0 && AtEnd(s, j + 1 + WordRun(s, j + 1)) && DigitsBefore(s, j) > 0
  {
    MatchIsAtLastSlash(s, i, j', e, j);
    assert IsDigit(s[j - 1]);
  }

  /** With both runs in place, the digits before the last '/' to the end are the leftmost match. */
  lemma MatchAtLastSlash(s: string, j: nat)
    requires LastSlash(s, j)
    requires WordRun(s, j + 1) > 0 && AtEnd(s, j + 1 + WordRun(s, j + 1)) && DigitsBefore(s, j) > 0
    ensures MatchesAt(s, j - DigitsBefore(s, j), j, j + 1 + WordRun(s, j + 1))
    ensures forall i: nat, j': nat, e: nat :: MatchesAt(s, i, j', e) ==> j - DigitsBefore(s, j) <= i
  {
    forall i: nat, j': nat, e: nat | MatchesAt(s, i, j', e) ensures j - DigitsBefore(s, j) <= i {
      MatchIsAtLastSlash(s, i, j', e, j);
    }
  }

  /** Any match uses the last '/', ends after the word run that follows it, and starts inside the digit run before it. */
  lemma MatchIsAtLastSlash(s: string, i: nat, j': nat, e: nat, j: nat)
    requires MatchesAt(s, i, j', e)
    requires LastSlash(s, j)
    ensures j' == j
    ensures e == j + 1 + WordRun(s, j + 1)
    ensures j - DigitsBefore(s, j) <= i
  {
  }

  /** Why a `YearSeason` property throws. */
  datatype ReadError = FormatError | OverflowError | SeasonNotFound

  /** The value of a string of decimal digits. */
  function DigitsValue(s: string): nat
    requires forall k :: 0 <= k < |s| ==> IsDigit(s[k])
  {
    if |s| == 0 then 0
    else
      assert IsDigit(s[|s| - 1]);
      10 * DigitsValue(s[..|s| - 1]) + (s[|s| - 1] as int - '0' as int)
  }

  const Int32Max: int := 0x7FFF_FFFF

  /**
   * `int.Parse` on the text of the digit group, which is ASCII digits or
   * empty: empty text is a format error, a value above `int.MaxValue` an
   * overflow.
   */
  function ParseInt(s: string): (r: Result<int, ReadError>)
    ensures r.Success? ==> 0 <= r.value <= Int32Max
    ensures |s| == 0 ==> r == Failure(FormatError)
    ensures r.Success? <==> 0 < |s| && (forall k :: 0 <= k < |s| ==> IsDigit(s[k])) && DigitsValue(s) <= Int32Max
    ensures r.Success? ==> r.value == DigitsValue(s)
    ensures (exists k :: 0 <= k < |s| && !IsDigit(s[k])) ==> r == Failure(FormatError)
    ensures 0 < |s| && (forall k :: 0 <= k < |s| ==> IsDigit(s[k])) && DigitsValue(s) > Int32Max ==>
      r == Failure(OverflowError)
  {
    if |s| == 0 || exists k :: 0 <= k < |s| && !IsDigit(s[k]) then Failure(FormatError)
    else if DigitsValue(s) > Int32Max then Failure(OverflowError)
    else Success(DigitsValue(s))
  }

  /** The decimal rendering of `n` (`n.ToString()`), without leading zeros. */
  function Decimal(n: nat): (r: string)
    ensures |r| > 0 && forall k :: 0 <= k < |r| ==> IsDigit(r[k])
  {
    var digit := ['0' + (n % 10) as char];
    if n < 10 then digit else Decimal(n / 10) + digit
  }

  /** Reading a rendered year back gives the year. */
  lemma {:induction false} DecimalValue(n: nat)
    ensures DigitsValue(Decimal(n)) == n
  {
    var r := Decimal(n);
    if n >= 10 {
      DecimalValue(n / 10);
      assert r[..|r| - 1] == Decimal(n / 10);
    }
  }

  /** `int.Parse` inverts the decimal rendering of every `int` year. */
  lemma ParseDecimal(n: nat)
    requires n <= Int32Max
    ensures ParseInt(Decimal(n)) == Success(n)
  {
    DecimalValue(n);
  }

  /** `seasonOrderMap[Season]`: spring, fall and winter in that order; any other name is not in the table. */
  function SeasonIndexOf(season: string): (r: Result<int, ReadError>)
    ensures r.Success? <==> season in {"spring", "fall", "winter"}
    ensures r.Success? ==> 1 <= r.value <= 3
    ensures r.Failure? ==> r.error == SeasonNotFound
  {
    if season == "spring" then Success(1)
    else if season == "fall" then Success(2)
    else if season == "winter" then Success(3)
    else Failure(SeasonNotFound)
  }

  /** The table orders the seasons of a year and gives each its own index. */
  lemma SeasonOrder()
    ensures SeasonIndexOf("spring").value < SeasonIndexOf("fall").value < SeasonIndexOf("winter").value
  {
  }

  /** `Groups[n].Value`: the group's text, "" when there is no match. */
  function YearText(s: string): (r: string)
    ensures Match(s) == None ==> r == ""
    ensures Match(s) != None ==> |r| > 0 && r == s[Match(s).value.start..Match(s).value.slash]
    ensures forall k :: 0 <= k < |r| ==> IsDigit(r[k])
  {
    match Match(s)
    case None => ""
    case Some(m) => s[m.start..m.slash]
  }

  /** `Season`, group 2: the word characters after the '/'. */
  function Season(s: string): (r: string)
    ensures Match(s) == None ==> r == ""
    ensures Match(s) != None ==> |r| > 0 && r == s[Match(s).value.slash + 1..Match(s).value.end]
    ensures forall k :: 0 <= k < |r| ==> IsWordChar(r[k])
  {
    match Match(s)
    case None => ""
    case Some(m) => s[m.slash + 1..m.end]
  }

  /** `Path`, group 0: the whole match, which is the digit group, '/', and the season. */
  function Path(s: string): (r: string)
    ensures r == if Match(s) == None then "" else YearText(s) + "/" + Season(s)
  {
    match Match(s)
    case None => ""
    case Some(m) =>
      assert s[m.start..m.end] == s[m.start..m.slash] + [s[m.slash]] + s[m.slash + 1..m.end];
      s[m.start..m.end]
  }

  /** `Year`: the digit group parsed; a non-matching path fails as a format error. */
  function Year(s: string): (r: Result<int, ReadError>)
    ensures Match(s) == None ==> r == Failure(FormatError)
    ensures r.Success? ==> 0 <= r.value <= Int32Max
    ensures r.Success? <==> Match(s) != None && DigitsValue(YearText(s)) <= Int32Max
    ensures r.Success? ==> r.value == DigitsValue(YearText(s))
    ensures Match(s) != None && DigitsValue(YearText(s)) > Int32Max ==> r == Failure(OverflowError)
  {
    ParseInt(YearText(s))
  }

  /** `SeasonIndex`: the season's place in the table. */
  function SeasonIndex(s: string): (r: Result<int, ReadError>)
    ensures Match(s) == None ==> r == Failure(SeasonNotFound)
  {
    SeasonIndexOf(Season(s))
  }

  /** A path "<year>/<season>" reads back as that year and that season. */
  lemma ReadsWrittenPath(year: nat, season: string)
    requires year <= Int32Max && |season| > 0 && forall k :: 0 <= k < |season| ==> IsWordChar(season[k])
    ensures var s := Decimal(year) + "/" + season;
      Year(s) == Success(year) && Season(s) == season && Path(s) == s
  {
    var y := Decimal(year);
    var s := y + "/" + season;
    WrittenRuns(y, season, s);
    ReadsHref(s, 0, |y|);
    ParseDecimal(year);
  }

  /** Where the digits, the '/' and the season lie in "<digits>/<season>". */
  lemma WrittenRuns(y: string, season: string, s: string)
    requires |y| > 0 && forall k :: 0 <= k < |y| ==> IsDigit(y[k])
    requires |season| > 0 && forall k :: 0 <= k < |season| ==> IsWordChar(season[k])
    requires s == y + "/" + season
    ensures |y| + 1 < |s| && s[|y|] == '/'
    ensures forall k :: 0 <= k < |y| ==> IsDigit(s[k])
    ensures forall k :: |y| < k < |s| ==> IsWordChar(s[k])
    ensures s[0..|y|] == y && s[|y| + 1..|s|] == season && s[0..|s|] == s
  {
    assert forall k :: 0 <= k < |y| ==> s[k] == y[k];
    assert forall k :: |y| < k < |s| ==> s[k] == season[k - |y| - 1];
    assert s[0..|y|] == y;
    assert s[|y| + 1..|s|] == season;
  }

  /**
   * A history href such as ".../123/01901/spring": a run of digits `s[i..j]`
   * not preceded by a digit, then '/', then word characters up to the end.
   * It reads as the digit group's value, padded or not, the season after the
   * '/', and the path from the digits on.
   */
  lemma ReadsHref(s: string, i: nat, j: nat)
    requires i < j && j + 1 < |s|
    requires i == 0 || !IsDigit(s[i - 1])
    requires forall k :: i <= k < j ==> IsDigit(s[k])
    requires s[j] == '/'
    requires forall k :: j < k < |s| ==> IsWordChar(s[k])
    ensures YearText(s) == s[i..j]
    ensures Year(s) == ParseInt(s[i..j])
    ensures DigitsValue(s[i..j]) <= Int32Max ==> Year(s) == Success(DigitsValue(s[i..j]))
    ensures Season(s) == s[j + 1..|s|] && Path(s) == s[i..|s|]
  {
    MatchFromRuns(s, i, j);
  }

  /** A digit run `s[i..j]` after a non-digit, a '/' at `j` and word characters to the end: the match is `s[i..]`. */
  lemma MatchFromRuns(s: string, i: nat, j: nat)
    requires i < j && j + 1 < |s|
    requires i == 0 || !IsDigit(s[i - 1])
    requires forall k :: i <= k < j ==> IsDigit(s[k])
    requires s[j] == '/'
    requires forall k :: j < k < |s| ==> IsWordChar(s[k])
    ensures Match(s) == Some(Span(i, j, |s|))
  {
    DigitRunFrom(s, i, j);
    assert MatchesAt(s, i, j, |s|);
    assert LastSlash(s, j);
    var m := Match(s).value;
    MatchIsAtLastSlash(s, m.start, m.slash, m.end, j);
    assert m.end == |s| by { assert IsWordChar(s[|s| - 1]); }
  }

  /** The digits before `j` start at `i` when `s[i..j]` are digits and `s[i - 1]` is not. */
  lemma DigitRunFrom(s: string, i: nat, j: nat)
    requires i <= j <= |s|
    requires i == 0 || !IsDigit(s[i - 1])
    requires forall k :: i <= k < j ==> IsDigit(s[k])
    ensures DigitsBefore(s, j) == j - i
  {
  }
}
