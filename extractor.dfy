/**
 * `GameReader.BlobExtractor` (GameReader.BlobExtractor.cs): the turn paths
 * of a game's history page in turn order, and the three script lines of
 * each turn page.
 *
 * HTTP and HTML are not modelled. The history page is given as the `href`
 * of each anchor inside a table cell, in document order (`None` for an
 * anchor without one). A turn page is given as the text of its scripts, as
 * served on a numbered attempt.
 */
module Extractor {
  import opened Wrappers
  import opened Text
  import YearSeasons

  /** `GamestateBlob`: one turn page's path, state and unit and order lines. */
  datatype GamestateBlob = GamestateBlob(path: string, turnState: string, unitLine: string, orderLine: string)

  /** The pages of the site, as served: anchors of a history page, scripts of a page on each attempt. */
  datatype Network = Network(
    historyAnchors: string -> seq<Option<string>>,
    pageScripts: (string, nat) -> seq<string>)

  /** `HISTORY_PAGE`: the history page's path relative to the game URL. */
  const HistoryPage: string := "ajax/history"

  /** `GAMESTATE_RETRY_COUNT`: the loop goes on while the attempt number is below it. */
  const RetryCount: nat := 5

  /** Why extraction throws. */
  datatype ExtractError =
    | BlankGameUrl                        // ArgumentException of `GetBlobs`
    | TurnKey(error: YearSeasons.ReadError) // `Year` or `SeasonIndex` of a path, while sorting
    | DuplicateMarker                     // InvalidOperationException of `SingleOrDefault`
    | QuoteRange                          // ArgumentOutOfRangeException of the turn-state range

  // ------------------------------------------------------ turn path order

  /** `Where(v => !v.IsNullOrEmpty())` after `?? string.Empty`: the non-empty hrefs, in order. */
  function NonEmptyHrefs(hrefs: seq<Option<string>>): (r: seq<string>)
    ensures forall k :: 0 <= k < |r| ==> |r[k]| > 0
    ensures |r| <= |hrefs|
    ensures (forall k :: 0 <= k < |hrefs| ==> hrefs[k] != None && hrefs[k].value != "") ==> |r| == |hrefs|
    ensures forall x :: x in r <==> x != "" && Some(x) in hrefs
  {
    if |hrefs| == 0 then []
    else
      var v := hrefs[0].GetOr("");
      assert hrefs == [hrefs[0]] + hrefs[1..];
      (if v != "" then [v] else []) + NonEmptyHrefs(hrefs[1..])
  }

  /** The positions, from `from` on, of the hrefs that are neither null nor empty, ascending. */
  function HrefPositions(hrefs: seq<Option<string>>, from: nat): (r: seq<nat>)
    requires from <= |hrefs|
    ensures forall k :: 0 <= k < |r| ==> from <= r[k] < |hrefs| && hrefs[r[k]] != None && hrefs[r[k]].value != ""
    ensures forall k, l :: 0 <= k < l < |r| ==> r[k] < r[l]
    ensures forall j :: from <= j < |hrefs| && hrefs[j] != None && hrefs[j].value != "" ==> j in r
    decreases |hrefs| - from
  {
    if from == |hrefs| then []
    else if hrefs[from].GetOr("") != "" then [from] + HrefPositions(hrefs, from + 1)
    else HrefPositions(hrefs, from + 1)
  }

  /** The filter keeps order: its k-th URL is the href at the k-th non-empty position. */
  lemma {:induction false} NonEmptyHrefsInOrder(hrefs: seq<Option<string>>, from: nat)
    requires from <= |hrefs|
    ensures var r, p := NonEmptyHrefs(hrefs[from..]), HrefPositions(hrefs, from);
      && |r| == |p|
      && forall k :: 0 <= k < |r| ==> r[k] == hrefs[p[k]].value
    decreases |hrefs| - from
  {
    if from < |hrefs| {
      var tail := hrefs[from..];
      assert tail[0] == hrefs[from];
      assert tail[1..] == hrefs[from + 1..];
      NonEmptyHrefsInOrder(hrefs, from + 1);
      var r', p' := NonEmptyHrefs(hrefs[from + 1..]), HrefPositions(hrefs, from + 1);
      if hrefs[from].GetOr("") != "" {
        assert NonEmptyHrefs(tail) == [hrefs[from].value] + r';
        HrefsConsStep(hrefs, hrefs[from].value, from, r', p');
      } else {
        assert NonEmptyHrefs(tail) == r';
      }
    } else {
      assert hrefs[from..] == [];
    }
  }

  lemma HrefsConsStep(hrefs: seq<Option<string>>, v: string, j: nat, r: seq<string>, p: seq<nat>)
    requires j < |hrefs| && hrefs[j] == Some(v)
    requires |r| == |p| && forall k :: 0 <= k < |p| ==> p[k] < |hrefs| && hrefs[p[k]] != None && r[k] == hrefs[p[k]].value
    ensures forall k :: 0 <= k < |p| + 1 ==>
      && ([j] + p)[k] < |hrefs| && hrefs[([j] + p)[k]] != None
      && ([v] + r)[k] == hrefs[([j] + p)[k]].value
  {
  }

  /** A turn to sort: its two keys and the URL it was read from. */
  datatype Turn = Turn(year: int, index: int, url: string)

  /** The `OrderBy(Year).ThenBy(SeasonIndex)` order: year first, then season index. */
  predicate Leq(a: Turn, b: Turn) {
    a.year < b.year || (a.year == b.year && a.index <= b.index)
  }

  predicate Sorted(s: seq<Turn>) {
    forall i, j :: 0 <= i < j < |s| ==> Leq(s[i], s[j])
  }

  /** Inserting `x` after every turn it does not sort before. */
  function Insert(t: seq<Turn>, x: Turn): (r: seq<Turn>)
    ensures multiset(r) == multiset(t) + multiset{x}
    ensures |r| == |t| + 1
    ensures Sorted(t) ==> Sorted(r)
  {
    if |t| == 0 then [x]
    else if !Leq(t[0], x) then [x] + t
    else
      var rest := Insert(t[1..], x);
      assert t == [t[0]] + t[1..];
      if Sorted(t) then InsertSortedStep(t, x, rest); [t[0]] + rest else [t[0]] + rest
  }

  /** The head of a sorted list, not after `x`, goes in front of the sorted rest with `x` inserted. */
  lemma InsertSortedStep(t: seq<Turn>, x: Turn, rest: seq<Turn>)
    requires Sorted(t) && |t| > 0 && Leq(t[0], x)
    requires multiset(rest) == multiset(t[1..]) + multiset{x} && Sorted(rest)
    ensures Sorted([t[0]] + rest)
  {
    forall k | 0 <= k < |rest| ensures Leq(t[0], rest[k]) {
      assert rest[k] in multiset(rest);
      if rest[k] != x {
        assert rest[k] in multiset(t[1..]);
        var m :| 0 <= m < |t[1..]| && t[1..][m] == rest[k];
        assert t[1..][m] == t[m + 1];
      }
    }
    var r := [t[0]] + rest;
    forall i, j | 0 <= i < j < |r| ensures Leq(r[i], r[j]) {
      if i == 0 { assert r[j] == rest[j - 1]; } else { assert r[i] == rest[i - 1] && r[j] == rest[j - 1]; }
    }
  }

  /** LINQ's stable sort on the two keys, as an insertion sort. */
  function SortTurns(s: seq<Turn>): (r: seq<Turn>)
    ensures |r| == |s|
    ensures Sorted(r)
    ensures multiset(r) == multiset(s)
  {
    if |s| == 0 then []
    else
      assert s == s[..|s| - 1] + [s[|s| - 1]];
      Insert(SortTurns(s[..|s| - 1]), s[|s| - 1])
  }

  /** The turns with both keys equal to `year` and `index`, in order. */
  function WithKey(s: seq<Turn>, year: int, index: int): seq<Turn> {
    if |s| == 0 then []
    else (if s[0].year == year && s[0].index == index then [s[0]] else []) + WithKey(s[1..], year, index)
  }

  lemma {:induction false} WithKeyAppend(a: seq<Turn>, b: seq<Turn>, year: int, index: int)
    ensures WithKey(a + b, year, index) == WithKey(a, year, index) + WithKey(b, year, index)
  {
    if |a| == 0 {
      assert a + b == b;
    } else {
      assert (a + b)[1..] == a[1..] + b;
      WithKeyAppend(a[1..], b, year, index);
    }
  }

  /** In a sorted list, nothing after a turn that sorts strictly after `x` shares `x`'s keys. */
  lemma {:induction false} NoneWithKeyAbove(t: seq<Turn>, x: Turn)
    requires Sorted(t) && |t| > 0 && !Leq(t[0], x)
    ensures WithKey(t, x.year, x.index) == []
  {
    if |t| > 1 {
      assert Leq(t[0], t[1]);
      NoneWithKeyAbove(t[1..], x);
    }
  }

  /** Inserting into a sorted list puts `x` after the turns already there with its keys. */
  lemma {:induction false} InsertStable(t: seq<Turn>, x: Turn, year: int, index: int)
    requires Sorted(t)
    ensures WithKey(Insert(t, x), year, index)
      == WithKey(t, year, index) + (if x.year == year && x.index == index then [x] else [])
  {
    var tail := if x.year == year && x.index == index then [x] else [];
    if |t| == 0 {
      WithKeyCons(x, [], year, index);
    } else if !Leq(t[0], x) {
      assert Insert(t, x) == [x] + t;
      FrontStable(t, x, year, index);
    } else {
      SortedTail(t);
      InsertStable(t[1..], x, year, index);
      InsertStableStep(t, x, tail, year, index);
    }
  }

  /** The step of `InsertStable` where `x` goes past the head. */
  lemma InsertStableStep(t: seq<Turn>, x: Turn, tail: seq<Turn>, year: int, index: int)
    requires |t| > 0 && Leq(t[0], x)
    requires WithKey(Insert(t[1..], x), year, index) == WithKey(t[1..], year, index) + tail
    ensures WithKey(Insert(t, x), year, index) == WithKey(t, year, index) + tail
  {
    InsertPast(t, x);
    assert t == [t[0]] + t[1..];
    WithKeyConsBoth(t[0], t[1..], Insert(t[1..], x), tail, year, index);
  }

  lemma InsertPast(t: seq<Turn>, x: Turn)
    requires |t| > 0 && Leq(t[0], x)
    ensures Insert(t, x) == [t[0]] + Insert(t[1..], x)
  {
  }

  /** `x` put in front of a sorted list whose head sorts after it comes after its keys' turns. */
  lemma FrontStable(t: seq<Turn>, x: Turn, year: int, index: int)
    requires Sorted(t) && |t| > 0 && !Leq(t[0], x)
    ensures WithKey([x] + t, year, index)
      == WithKey(t, year, index) + (if x.year == year && x.index == index then [x] else [])
  {
    WithKeyCons(x, t, year, index);
    if x.year == year && x.index == index {
      NoneWithKeyAbove(t, x);
    }
  }

  /** A sorted list stays sorted without its head. */
  lemma SortedTail(t: seq<Turn>)
    requires Sorted(t) && |t| > 0
    ensures Sorted(t[1..])
  {
    forall i, j | 0 <= i < j < |t| - 1 ensures Leq(t[1..][i], t[1..][j]) {
      assert t[1..][i] == t[i + 1] && t[1..][j] == t[j + 1];
    }
  }

  /** Putting the same head on two lists keeps what `WithKey` adds to the second. */
  lemma WithKeyConsBoth(h: Turn, a: seq<Turn>, b: seq<Turn>, tail: seq<Turn>, year: int, index: int)
    requires WithKey(b, year, index) == WithKey(a, year, index) + tail
    ensures WithKey([h] + b, year, index) == WithKey([h] + a, year, index) + tail
  {
    WithKeyCons(h, a, year, index);
    WithKeyCons(h, b, year, index);
    var head: seq<Turn> := if h.year == year && h.index == index then [h] else [];
    AppendAssoc(head, WithKey(a, year, index), tail);
  }

  lemma AppendAssoc(x: seq<Turn>, y: seq<Turn>, z: seq<Turn>)
    ensures x + (y + z) == (x + y) + z
  {
  }

  /** `WithKey` of a list with a first element. */
  lemma WithKeyCons(h: Turn, rest: seq<Turn>, year: int, index: int)
    ensures WithKey([h] + rest, year, index)
      == (if h.year == year && h.index == index then [h] else []) + WithKey(rest, year, index)
  {
    assert ([h] + rest)[1..] == rest;
  }

  /**
   * The sort is stable: the turns sharing a (year, season index) pair come
   * out in the order they came in.
   */
  lemma {:induction false} SortStable(s: seq<Turn>, year: int, index: int)
    ensures WithKey(SortTurns(s), year, index) == WithKey(s, year, index)
  {
    if |s| > 0 {
      var init := s[..|s| - 1];
      var last := s[|s| - 1];
      assert s == init + [last];
      WithKeyAppend(init, [last], year, index);
      SortStable(init, year, index);
      InsertStable(SortTurns(init), last, year, index);
      assert WithKey([last], year, index) == (if last.year == year && last.index == index then [last] else []) by {
        assert [last][1..] == [];
      }
    }
  }

  /** The keys `key` gives all URLs, in order; the first failure is raised. */
  function Keys(urls: seq<string>, key: string -> Result<int, YearSeasons.ReadError>): (r: Result<seq<int>, YearSeasons.ReadError>)
    ensures r.Success? ==> |r.value| == |urls|
    ensures r.Success? <==> forall k :: 0 <= k < |urls| ==> key(urls[k]).Success?
    ensures r.Success? ==> forall k :: 0 <= k < |urls| ==> r.value[k] == key(urls[k]).value
  {
    if |urls| == 0 then Success([])
    else
      var y :- key(urls[0]);
      var rest :- Keys(urls[1..], key);
      Success([y] + rest)
  }

  /** The `Year` keys of all URLs, in order; the first failure is raised. */
  function Years(urls: seq<string>): (r: Result<seq<int>, YearSeasons.ReadError>)
    ensures r.Success? ==> |r.value| == |urls|
    ensures r.Success? <==> forall k :: 0 <= k < |urls| ==> YearSeasons.Year(urls[k]).Success?
    ensures r.Success? ==> forall k :: 0 <= k < |urls| ==> r.value[k] == YearSeasons.Year(urls[k]).value
  {
    Keys(urls, YearSeasons.Year)
  }

  /** The `SeasonIndex` keys of all URLs, in order; the first failure is raised. */
  function SeasonIndices(urls: seq<string>): (r: Result<seq<int>, YearSeasons.ReadError>)
    ensures r.Success? ==> |r.value| == |urls|
    ensures r.Success? <==> forall k :: 0 <= k < |urls| ==> YearSeasons.SeasonIndex(urls[k]).Success?
    ensures r.Success? ==> forall k :: 0 <= k < |urls| ==> r.value[k] == YearSeasons.SeasonIndex(urls[k]).value
  {
    Keys(urls, YearSeasons.SeasonIndex)
  }

  function Zip(years: seq<int>, indices: seq<int>, urls: seq<string>): (r: seq<Turn>)
    requires |years| == |indices| == |urls|
    ensures |r| == |urls| && forall k :: 0 <= k < |r| ==> r[k] == Turn(years[k], indices[k], urls[k])
  {
    if |urls| == 0 then [] else [Turn(years[0], indices[0], urls[0])] + Zip(years[1..], indices[1..], urls[1..])
  }

  function Paths(turns: seq<Turn>): (r: seq<string>)
    ensures |r| == |turns| && forall k :: 0 <= k < |r| ==> r[k] == YearSeasons.Path(turns[k].url)
  {
    if |turns| == 0 then [] else [YearSeasons.Path(turns[0].url)] + Paths(turns[1..])
  }

  /**
   * `GetAllPagePaths` after the history page is fetched: the non-empty
   * hrefs, keyed by year and season index, stably sorted, then mapped to
   * their paths. The sort computes every `Year`, then every `SeasonIndex`,
   * before comparing, so one bad href fails the whole list.
   */
  function SortedTurns(hrefs: seq<Option<string>>): (r: Result<seq<Turn>, ExtractError>)
    ensures var urls := NonEmptyHrefs(hrefs);
      r.Success? <==> Years(urls).Success? && SeasonIndices(urls).Success?
    ensures r.Success? ==> Sorted(r.value) && |r.value| == |NonEmptyHrefs(hrefs)|
  {
    var urls := NonEmptyHrefs(hrefs);
    match Years(urls)
    case Failure(e) => Failure(TurnKey(e))
    case Success(years) =>
      match SeasonIndices(urls)
      case Failure(e) => Failure(TurnKey(e))
      case Success(indices) =>
        var turns := Zip(years, indices, urls);
        Success(SortTurns(turns))
  }

  function GetAllPagePaths(hrefs: seq<Option<string>>): (r: Result<seq<string>, ExtractError>)
    ensures r.Success? <==> SortedTurns(hrefs).Success?
    ensures r.Success? ==> r.value == Paths(SortedTurns(hrefs).value)
  {
    var turns :- SortedTurns(hrefs);
    Success(Paths(turns))
  }

  /**
   * Every href comes out once: the sorted turns are the keyed hrefs
   * rearranged, and two hrefs with the same keys keep their order.
   */
  lemma SortedTurnsArePermutation(hrefs: seq<Option<string>>, year: int, index: int)
    requires SortedTurns(hrefs).Success?
    ensures var urls := NonEmptyHrefs(hrefs);
      var turns := Zip(Years(urls).value, SeasonIndices(urls).value, urls);
      multiset(SortedTurns(hrefs).value) == multiset(turns)
      && WithKey(SortedTurns(hrefs).value, year, index) == WithKey(turns, year, index)
  {
    var urls := NonEmptyHrefs(hrefs);
    var turns := Zip(Years(urls).value, SeasonIndices(urls).value, urls);
    SortStable(turns, year, index);
  }

  // ---------------------------------------------------- turn page scripts

  /** The concatenated `Split('\n')` lines of the scripts whose text contains "var orders". */
  function ScriptLines(scripts: seq<string>): (r: seq<string>)
    ensures forall k :: 0 <= k < |r| ==> '\n' !in r[k]
    ensures (forall k :: 0 <= k < |scripts| ==> !Contains(scripts[k], "var orders")) ==> r == []
    ensures forall line :: line in r <==>
      exists k :: 0 <= k < |scripts| && Contains(scripts[k], "var orders") && line in Split(scripts[k], '\n')
  {
    if |scripts| == 0 then []
    else
      var here := if Contains(scripts[0], "var orders") then Split(scripts[0], '\n') else [];
      var rest := ScriptLines(scripts[1..]);
      assert forall k :: 1 <= k < |scripts| ==> scripts[k] == scripts[1..][k - 1];
      here + rest
  }

  /** One script contributes its own lines, or none. */
  lemma ScriptLinesOne(script: string)
    ensures ScriptLines([script]) == if Contains(script, "var orders") then Split(script, '\n') else []
  {
    assert [script][1..] == [];
  }

  /** The lines keep the order of the scripts: those of the earlier scripts come first. */
  lemma {:induction false} ScriptLinesAppend(a: seq<string>, b: seq<string>)
    ensures ScriptLines(a + b) == ScriptLines(a) + ScriptLines(b)
  {
    if |a| == 0 {
      assert a + b == b;
    } else {
      assert (a + b)[0] == a[0];
      assert (a + b)[1..] == a[1..] + b;
      ScriptLinesAppend(a[1..], b);
      var here := if Contains(a[0], "var orders") then Split(a[0], '\n') else [];
      AppendAssocLines(here, ScriptLines(a[1..]), ScriptLines(b));
    }
  }

  lemma AppendAssocLines(x: seq<string>, y: seq<string>, z: seq<string>)
    ensures x + (y + z) == (x + y) + z
  {
  }

  /** The positions of the lines containing `marker`, ascending. */
  function MarkerPositions(lines: seq<string>, marker: string, from: nat): (r: seq<nat>)
    requires from <= |lines|
    ensures forall k :: 0 <= k < |r| ==> from <= r[k] < |lines| && Contains(lines[r[k]], marker)
    ensures forall k, l :: 0 <= k < l < |r| ==> r[k] < r[l]
    ensures forall i :: from <= i < |lines| && Contains(lines[i], marker) ==> i in r
    decreases |lines| - from
  {
    if from == |lines| then []
    else if Contains(lines[from], marker) then [from] + MarkerPositions(lines, marker, from + 1)
    else MarkerPositions(lines, marker, from + 1)
  }

  /**
   * `Where(l => l.Contains(marker)).SingleOrDefault()?.Trim()`: null when no
   * line holds the marker, the trimmed line when one does, and an error when
   * two do.
   */
  function SingleLine(lines: seq<string>, marker: string): (r: Result<Option<string>, ExtractError>)
    ensures r == Success(None) <==> forall i :: 0 <= i < |lines| ==> !Contains(lines[i], marker)
    ensures r.Failure? <==> exists i, j :: 0 <= i < j < |lines| && Contains(lines[i], marker) && Contains(lines[j], marker)
    ensures r.Failure? ==> r.error == DuplicateMarker
    ensures r.Success? && r.value != None ==>
      exists i :: 0 <= i < |lines| && Contains(lines[i], marker) && r.value.value == Trim(lines[i])
  {
    var positions := MarkerPositions(lines, marker, 0);
    if |positions| == 0 then Success(None)
    else if |positions| == 1 then
      Success(Some(Trim(lines[positions[0]])))
    else
      assert positions[0] < positions[1];
      Failure(DuplicateMarker)
  }

  /**
   * `stateLine[(IndexOf('"') + 1)..LastIndexOf('"')]`: the text strictly
   * between the first and the last '"'. With fewer than two quotes the
   * range is out of order and throws.
   */
  function TurnState(line: string): (r: Result<string, ExtractError>)
    ensures r.Failure? <==> !exists i, j :: 0 <= i < j < |line| && line[i] == '"' && line[j] == '"'
    ensures r.Failure? ==> r.error == QuoteRange
    ensures r.Success? ==> exists i, j :: (0 <= i < j < |line| && line[i] == '"' && line[j] == '"'
      && '"' !in line[..i] && '"' !in line[j + 1..] && r.value == line[i + 1..j])
  {
    match (IndexOf(line, '"'), LastIndexOf(line, '"'))
    case (Some(i), Some(j)) =>
      QuoteBounds(line, i, j);
      if i < j then Success(line[i + 1..j])
      else
        Failure(QuoteRange)
    case _ => Failure(QuoteRange)
  }

  /** Every pair of quotes lies between the first quote `i` and the last quote `j`. */
  lemma QuoteBounds(line: string, i: nat, j: nat)
    requires i < |line| && line[i] == '"' && '"' !in line[..i]
    requires j < |line| && line[j] == '"' && '"' !in line[j + 1..]
    ensures forall a, b :: 0 <= a < b < |line| && line[a] == '"' && line[b] == '"' ==> i <= a && b <= j
  {
  }

  /** The markers of the three lines. */
  const StageMarker: string := "var stage = "
  const UnitsMarker: string := "var unitsByPlayer = "
  const OrdersMarker: string := "var orders = "

  /**
   * What one pass over `lines` yields: the first of the three lookups that
   * throws decides the error; with all three looked up and one missing the
   * page is incomplete; with all three found, the blob holds the turn state
   * between the quotes of the stage line and the unit and order lines as
   * found, unless that range throws.
   */
  predicate AttemptOutcome(lines: seq<string>, path: string, r: Result<Option<GamestateBlob>, ExtractError>) {
    var s, u, o := SingleLine(lines, StageMarker), SingleLine(lines, UnitsMarker), SingleLine(lines, OrdersMarker);
    && ((s.Failure? || u.Failure? || o.Failure?) ==>
          r == Failure(if s.Failure? then s.error else if u.Failure? then u.error else o.error))
    && (s.Success? && u.Success? && o.Success? && (s.value == None || u.value == None || o.value == None) ==>
          r == Success(None))
    && (s.Success? && u.Success? && o.Success? && s.value != None && u.value != None && o.value != None ==>
          var t := TurnState(s.value.value);
          && (t.Failure? ==> r == Failure(t.error))
          && (t.Success? ==> r == Success(Some(GamestateBlob(path, t.value, u.value.value, o.value.value)))))
  }

  /**
   * One pass of the retry loop over the page's scripts: all three lines are
   * looked up (stage, units, orders) before any is checked; a page missing
   * one is incomplete (null); otherwise the blob for `path`.
   */
  function Attempt(scripts: seq<string>, path: string): (r: Result<Option<GamestateBlob>, ExtractError>)
    ensures r.Success? && r.value != None ==> r.value.value.path == path
    ensures var lines := ScriptLines(scripts);
      r.Success? && r.value == None ==> ((forall i :: 0 <= i < |lines| ==> !Contains(lines[i], StageMarker))
        || (forall i :: 0 <= i < |lines| ==> !Contains(lines[i], UnitsMarker))
        || (forall i :: 0 <= i < |lines| ==> !Contains(lines[i], OrdersMarker)))
    ensures AttemptOutcome(ScriptLines(scripts), path, r)
  {
    FromLines(ScriptLines(scripts), path)
  }

  /** `Attempt` once the script lines are known. */
  function FromLines(lines: seq<string>, path: string): (r: Result<Option<GamestateBlob>, ExtractError>)
    ensures r.Success? && r.value != None ==> r.value.value.path == path
    ensures r.Success? && r.value == None ==> ((forall i :: 0 <= i < |lines| ==> !Contains(lines[i], StageMarker))
        || (forall i :: 0 <= i < |lines| ==> !Contains(lines[i], UnitsMarker))
        || (forall i :: 0 <= i < |lines| ==> !Contains(lines[i], OrdersMarker)))
    ensures AttemptOutcome(lines, path, r)
  {
    var stateLine :- SingleLine(lines, StageMarker);
    var unitLine :- SingleLine(lines, UnitsMarker);
    var orderLine :- SingleLine(lines, OrdersMarker);
    if stateLine == None || unitLine == None || orderLine == None then Success(None)
    else
      var turnState :- TurnState(stateLine.value);
      Success(Some(GamestateBlob(path, turnState, unitLine.value, orderLine.value)))
  }

  /** What each attempt number finds on the page at `url + path`. */
  function Outcomes(pageScripts: (string, nat) -> seq<string>, url: string, path: string)
    : nat -> Result<Option<GamestateBlob>, ExtractError>
  {
    (a: nat) => Attempt(pageScripts(url + path, a), path)
  }

  /** The retry loop from attempt number `attempt` on: the first complete page, or null after the last attempt. */
  function FromAttempt(outcome: nat -> Result<Option<GamestateBlob>, ExtractError>, attempt: nat)
    : (r: Result<Option<GamestateBlob>, ExtractError>)
    ensures attempt >= RetryCount ==> r == Success(None)
    ensures r != Success(None) ==> exists a :: attempt <= a < RetryCount && outcome(a) == r
    decreases RetryCount - attempt
  {
    if attempt >= RetryCount then Success(None)
    else match outcome(attempt)
      case Failure(e) => Failure(e)
      case Success(None) => FromAttempt(outcome, attempt + 1)
      case Success(Some(blob)) => Success(Some(blob))
  }

  /** One turn of the loop: a failure or a blob ends it, an incomplete page moves on to the next attempt. */
  lemma FromAttemptStep(o: nat -> Result<Option<GamestateBlob>, ExtractError>, a: nat)
    requires a < RetryCount
    ensures o(a) == Success(None) ==> FromAttempt(o, a) == FromAttempt(o, a + 1)
    ensures o(a) != Success(None) ==> FromAttempt(o, a) == o(a)
  {
  }

  /** The loop looks at attempts below `RetryCount` only: outcomes of other attempts change nothing. */
  lemma {:induction false} FromAttemptReadsBelowRetryCount(o: nat -> Result<Option<GamestateBlob>, ExtractError>,
                                                         o': nat -> Result<Option<GamestateBlob>, ExtractError>, attempt: nat)
    requires forall a :: attempt <= a < RetryCount ==> o(a) == o'(a)
    ensures FromAttempt(o, attempt) == FromAttempt(o', attempt)
    decreases RetryCount - attempt
  {
    if attempt < RetryCount {
      FromAttemptReadsBelowRetryCount(o, o', attempt + 1);
    }
  }

  /** The page is fetched on attempts 1 to 4 only: what is served on any other attempt changes nothing. */
  lemma OnlyFourFetches(p: (string, nat) -> seq<string>, q: (string, nat) -> seq<string>, url: string, path: string)
    requires forall a :: 1 <= a <= 4 ==> p(url + path, a) == q(url + path, a)
    ensures FromAttempt(Outcomes(p, url, path), 1) == FromAttempt(Outcomes(q, url, path), 1)
  {
    FromAttemptReadsBelowRetryCount(Outcomes(p, url, path), Outcomes(q, url, path), 1);
  }

  /** The loop yields null exactly when every attempt from `attempt` to 4 finds an incomplete page. */
  lemma {:induction false} NullIffAllIncomplete(o: nat -> Result<Option<GamestateBlob>, ExtractError>, attempt: nat)
    ensures FromAttempt(o, attempt) == Success(None)
      <==> forall a :: attempt <= a < RetryCount ==> o(a) == Success(None)
    decreases RetryCount - attempt
  {
    if attempt < RetryCount {
      NullIffAllIncomplete(o, attempt + 1);
    }
  }

  /** A blob is the one built from the first complete attempt, and all earlier attempts were incomplete. */
  lemma {:induction false} BlobFromFirstComplete(o: nat -> Result<Option<GamestateBlob>, ExtractError>, attempt: nat)
    requires FromAttempt(o, attempt).Success? && FromAttempt(o, attempt).value != None
    ensures exists a :: (attempt <= a < RetryCount && o(a) == FromAttempt(o, attempt)
      && forall b :: attempt <= b < a ==> o(b) == Success(None))
    decreases RetryCount - attempt
  {
    if o(attempt) == Success(None) {
      BlobFromFirstComplete(o, attempt + 1);
      var a :| attempt + 1 <= a < RetryCount && o(a) == FromAttempt(o, attempt + 1)
        && forall b :: attempt + 1 <= b < a ==> o(b) == Success(None);
      assert attempt <= a < RetryCount && o(a) == FromAttempt(o, attempt);
    }
  }

  /**
   * The do-while of `ExtractGamestateStrings` over what each attempt finds:
   * a failure is raised at once, an incomplete page is retried while the
   * attempt number is below `RetryCount`, and a blob ends the loop. The
   * loop's condition is true on entry, so it is a while loop here.
   */
  method RetryLoop(outcome: nat -> Result<Option<GamestateBlob>, ExtractError>)
    returns (result: Result<Option<GamestateBlob>, ExtractError>)
    ensures result == FromAttempt(outcome, 1)
  {
    var attempts := 1;
    result := Success(None);
    while attempts < RetryCount
      invariant 1 <= attempts <= RetryCount && result == Success(None)
      invariant FromAttempt(outcome, 1) == FromAttempt(outcome, attempts)
      decreases RetryCount - attempts
    {
      var found := outcome(attempts);
      FromAttemptStep(outcome, attempts);
      if found.Failure? {
        return found;
      }
      if found.value == None {
        attempts := attempts + 1;
        continue;
      }
      result := found;
      break;
    }
  }

  /** `BlobExtractor`: reads one game's pages from the network. */
  class BlobExtractor {
    /** `GameUrl`, the prefix of every page fetched. */
    var gameUrl: string
    const network: Network

    constructor(network: Network)
      ensures this.network == network && gameUrl == ""
    {
      this.network := network;
      gameUrl := "";
    }

    /**
     * `GetBlobs`: a blank URL is rejected; otherwise it becomes `GameUrl`
     * and the history page gives the turn paths in turn order. The blobs
     * themselves are fetched one path at a time as the result is
     * enumerated (`ExtractGamestateStrings`).
     */
    method GetBlobs(url: string) returns (paths: Result<seq<string>, ExtractError>)
      modifies this
      ensures IsBlank(url) ==> paths == Failure(BlankGameUrl) && gameUrl == old(gameUrl)
      ensures !IsBlank(url) ==> gameUrl == url && paths == GetAllPagePaths(network.historyAnchors(url + HistoryPage))
    {
      if IsBlank(url) {
        return Failure(BlankGameUrl);
      }
      gameUrl := url;
      paths := GetAllPagePaths(network.historyAnchors(gameUrl + HistoryPage));
    }

    /**
     * `ExtractGamestateStrings`: fetch the page, look for the three lines,
     * and retry while the page is incomplete and the attempt number is below
     * `RetryCount`. The do-while is a while loop here, its condition being
     * true on entry.
     */
    method ExtractGamestateStrings(path: string) returns (result: Result<Option<GamestateBlob>, ExtractError>)
      ensures result == FromAttempt(Outcomes(network.pageScripts, gameUrl, path), 1)
    {
      result := RetryLoop(Outcomes(network.pageScripts, gameUrl, path));
    }
  }
}
