// Hand-written recognisers for the two URL regular expressions of
// DiploDataManager.cs and DiploData.cs, each following .NET's leftmost,
// greedy-first backtracking order for its one pattern:
//   the game-URL pattern  ^http.*\.com/(?:<alternatives>)/([^/]*/)?\d{10,}/?
//   (DiploDataManager.cs with "sandbox" and "game", DiploData.cs with
//   "sandbox" only), and the foreign-id pattern  /(\d{10,})/ .
module Urls {
  import opened Wrappers
  import opened Text

  /** The length of the run of digits starting at `i`. */
  function DigitRun(s: string, i: nat): (n: nat)
    requires i <= |s|
    ensures i + n <= |s|
    ensures i + n == |s| || !IsDigit(s[i + n])
    decreases |s| - i
  {
    if i < |s| && IsDigit(s[i]) then 1 + DigitRun(s, i + 1) else 0
  }

  /** Every character of the run is a digit. */
  lemma {:induction false} DigitRunDigits(s: string, i: nat)
    requires i <= |s|
    ensures forall k :: i <= k < i + DigitRun(s, i) ==> IsDigit(s[k])
    decreases |s| - i
  {
    if i < |s| && IsDigit(s[i]) {
      DigitRunDigits(s, i + 1);
    }
  }

  /** The first position at or after `i` holding `c`, or `|s|` when there is none. */
  function NextIndexOf(s: string, i: nat, c: char): (j: nat)
    requires i <= |s|
    ensures i <= j <= |s|
    ensures c !in s[i..j]
    ensures j < |s| ==> s[j] == c
    decreases |s| - i
  {
    if i == |s| || s[i] == c then i
    else
      var j := NextIndexOf(s, i + 1, c);
      assert s[i..j] == [s[i]] + s[i + 1..j];
      j
  }

  /** `s[i..]` starts with `t`. */
  predicate HasAt(s: string, i: nat, t: string) {
    i + |t| <= |s| && s[i..i + |t|] == t
  }

  /** `\d{10,}/?` at `d`: the end of the match, taking every digit and a following '/'. */
  function IdTail(s: string, d: nat): (r: Option<nat>)
    requires d <= |s|
    ensures r != None <==> DigitRun(s, d) >= 10
    ensures r != None ==> d + 10 <= r.value <= |s|
  {
    var n := DigitRun(s, d);
    if n < 10 then None
    else if d + n < |s| && s[d + n] == '/' then Some(d + n + 1)
    else Some(d + n)
  }

  // `(?:alt)/([^/]*/)?\d{10,}/?` at `q`, the position just after ".com/":
  // the optional group is tried first (it can end only at the next '/'),
  // then the digits directly after `alt/`.
  function MatchAfterCom(s: string, q: nat, alt: string): (r: Option<nat>)
    requires q <= |s|
    ensures r != None ==> q + |alt| + 11 <= r.value <= |s|
  {
    if !HasAt(s, q, alt + "/") then None
    else
      var q1 := q + |alt| + 1;
      var slash := NextIndexOf(s, q1, '/');
      var withGroup := if slash < |s| then IdTail(s, slash + 1) else None;
      if withGroup != None then withGroup else IdTail(s, q1)
  }

  /** The match ends with '/', ten or more digits, and then the end or a '/' taken into the match. */
  predicate EndsWithId(s: string, e: nat) {
    exists d: nat :: 0 < d <= |s| && s[d - 1] == '/' && IdTail(s, d) == Some(e)
  }

  /** A successful `MatchAfterCom` ends in the id digits. */
  lemma MatchAfterComEndsWithId(s: string, q: nat, alt: string)
    requires q <= |s| && MatchAfterCom(s, q, alt) != None
    ensures EndsWithId(s, MatchAfterCom(s, q, alt).value)
  {
    var q1 := q + |alt| + 1;
    var slash := NextIndexOf(s, q1, '/');
    assert s[q1 - 1] == (alt + "/")[|alt|];
    if slash < |s| && IdTail(s, slash + 1) != None {
      assert s[slash + 1 - 1] == '/';
    } else {
      assert s[q1 - 1] == '/';
    }
  }

  /** The alternatives tried in order at one ".com/" position: the first that matches. */
  function FirstAlternative(s: string, q: nat, alts: seq<string>): (r: Option<nat>)
    requires q <= |s|
    ensures r == None <==> forall k :: 0 <= k < |alts| ==> MatchAfterCom(s, q, alts[k]) == None
    ensures r != None ==> exists k :: 0 <= k < |alts| && r == MatchAfterCom(s, q, alts[k])
    ensures r != None ==> r.value <= |s| && EndsWithId(s, r.value)
  {
    if |alts| == 0 then None
    else
      var r := MatchAfterCom(s, q, alts[0]);
      if r != None then MatchAfterComEndsWithId(s, q, alts[0]); r
      else
        var rest := FirstAlternative(s, q, alts[1..]);
        assert forall k :: 1 <= k < |alts| ==> alts[k] == alts[1..][k - 1];
        rest
  }

  /** `^http.*\.com/` may end its `.*` at `p`: "http", no line break in `s[4..p]`, then ".com/" at `p`. */
  predicate ComAt(s: string, p: nat) {
    HasAt(s, 0, "http") && 4 <= p && HasAt(s, p, ".com/") && '\n' !in s[4..p]
  }

  /** The match end when `.*` stops at `p`, if the rest of the pattern matches there. */
  function MatchAt(s: string, p: nat, alts: seq<string>): Option<nat> {
    if ComAt(s, p) then FirstAlternative(s, p + 5, alts) else None
  }

  /** `.*` is greedy: positions are tried from `p` down to 4; the first that matches wins. */
  function SearchDown(s: string, p: nat, alts: seq<string>): (r: Option<nat>)
    ensures r == None <==> forall p': nat :: p' <= p ==> MatchAt(s, p', alts) == None
    ensures r != None ==> exists p': nat :: (p' <= p && r == MatchAt(s, p', alts)
      && forall p'': nat :: p' < p'' <= p ==> MatchAt(s, p'', alts) == None)
    decreases p
  {
    var here := MatchAt(s, p, alts);
    if here != None then here
    else if p <= 4 then
      assert forall p': nat :: p' <= p ==> MatchAt(s, p', alts) == None by {
        forall p': nat | p' <= p ensures MatchAt(s, p', alts) == None { assert p' < 4 || p' == p; }
      }
      None
    else
      var r := SearchDown(s, p - 1, alts);
      SearchDownStep(s, p, alts, r);
      r
  }

  /** Nothing matching at `p` itself, the search from `p` is the search from `p - 1`. */
  lemma SearchDownStep(s: string, p: nat, alts: seq<string>, r: Option<nat>)
    requires p > 0 && MatchAt(s, p, alts) == None
    requires r == None <==> forall p': nat :: p' <= p - 1 ==> MatchAt(s, p', alts) == None
    requires r != None ==> exists p': nat :: (p' <= p - 1 && r == MatchAt(s, p', alts)
      && forall p'': nat :: p' < p'' <= p - 1 ==> MatchAt(s, p'', alts) == None)
    ensures r == None <==> forall p': nat :: p' <= p ==> MatchAt(s, p', alts) == None
    ensures r != None ==> exists p': nat :: (p' <= p && r == MatchAt(s, p', alts)
      && forall p'': nat :: p' < p'' <= p ==> MatchAt(s, p'', alts) == None)
  {
    if r != None {
      var p': nat :| p' <= p - 1 && r == MatchAt(s, p', alts)
        && forall p'': nat :: p' < p'' <= p - 1 ==> MatchAt(s, p'', alts) == None;
      assert forall p'': nat :: p' < p'' <= p ==> MatchAt(s, p'', alts) == None by {
        forall p'': nat | p' < p'' <= p ensures MatchAt(s, p'', alts) == None {
          if p'' == p { } else { assert p'' <= p - 1; }
        }
      }
    } else {
      forall p': nat | p' <= p ensures MatchAt(s, p', alts) == None {
        if p' == p { } else { assert p' <= p - 1; }
      }
    }
  }

  /**
   * The game-URL pattern anchored at the start of `s`: the length of the
   * matched prefix. The match is the one whose `.*` is longest.
   */
  function MatchGameUrl(s: string, alts: seq<string>): (r: Option<nat>)
    ensures r == None <==> forall p: nat :: MatchAt(s, p, alts) == None
    ensures r != None ==> exists p: nat :: (r == MatchAt(s, p, alts)
      && forall p': nat :: p < p' ==> MatchAt(s, p', alts) == None)
    ensures r != None ==> HasAt(s, 0, "http") && r.value <= |s|
  {
    if !HasAt(s, 0, "http") then None
    else
      var r := SearchDown(s, |s|, alts);
      assert forall p: nat :: p > |s| ==> MatchAt(s, p, alts) == None;
      r
  }

  /** The digits of a foreign-id match at a '/' at `i`: a run of ten or more followed by '/'. */
  predicate IdAt(s: string, i: nat) {
    i < |s| && s[i] == '/' && DigitRun(s, i + 1) >= 10
    && i + 1 + DigitRun(s, i + 1) < |s| && s[i + 1 + DigitRun(s, i + 1)] == '/'
  }

  /** The foreign-id pattern: the leftmost '/' starting a match, searching from `i`. */
  function FindIdFrom(s: string, i: nat): (r: Option<nat>)
    requires i <= |s|
    ensures r != None ==> i <= r.value < |s| && IdAt(s, r.value)
    ensures r != None ==> forall k :: i <= k < r.value ==> !IdAt(s, k)
    ensures r == None <==> forall k :: i <= k < |s| ==> !IdAt(s, k)
    decreases |s| - i
  {
    if i == |s| then None
    else if IdAt(s, i) then Some(i)
    else FindIdFrom(s, i + 1)
  }

  /** `/(\d{10,})/`: the captured digit run of the leftmost match. */
  function ForeignIdOf(s: string): (r: Option<string>)
    ensures r == None <==> forall k :: 0 <= k < |s| ==> !IdAt(s, k)
    ensures r != None ==> |r.value| >= 10 && forall k :: 0 <= k < |r.value| ==> IsDigit(r.value[k])
    ensures r != None ==> exists i: nat :: IdAt(s, i) && r.value == s[i + 1..i + 1 + DigitRun(s, i + 1)]
  {
    match FindIdFrom(s, 0)
    case None => None
    case Some(i) => DigitRunDigits(s, i + 1); Some(s[i + 1..i + 1 + DigitRun(s, i + 1)])
  }

  /** A match at `i` with none before it is the one `ForeignIdOf` reports. */
  lemma ForeignIdAt(s: string, i: nat)
    requires IdAt(s, i) && forall k :: 0 <= k < i ==> !IdAt(s, k)
    ensures ForeignIdOf(s) == Some(s[i + 1..i + 1 + DigitRun(s, i + 1)])
  {
    var r := FindIdFrom(s, 0);
    assert r != None by { assert IdAt(s, i) && 0 <= i < |s|; }
    assert r.value == i by {
      assert IdAt(s, r.value);
      assert !(r.value < i);
      assert !(i < r.value);
    }
  }

  /** A '/' is added to a match that does not end with one. */
  function WithSlash(matched: string): (r: string)
    requires |matched| > 0
    ensures |r| > 0 && r[|r| - 1] == '/'
    ensures r == matched || r == matched + "/"
  {
    if matched[|matched| - 1] != '/' then matched + "/" else matched
  }

  /** Why `ExtractKeyValues` fails. */
  datatype KeyError = NullOrEmptyUrl | UrlNotRecognised | NoForeignId

  /**
   * `ExtractKeyValues` for a given pattern alternative list: rejects a null
   * or empty URL, then a URL that does not match, then (never, see
   * `SanitizedUrlHasForeignId`) one without a foreign id.
   */
  function ExtractKeyValues(url: Option<string>, alts: seq<string>): (r: Result<(string, string), KeyError>)
    ensures url == None || url == Some("") ==> r == Failure(NullOrEmptyUrl)
    ensures url != None && url != Some("") ==> (r == Failure(UrlNotRecognised) <==> MatchGameUrl(url.value, alts) == None)
    ensures r.Success? ==> url != None
    ensures r.Success? ==> r.value.0 == WithSlash(url.value[..MatchGameUrl(url.value, alts).value])
    ensures r.Success? ==> Some(r.value.1) == ForeignIdOf(r.value.0)
  {
    if url == None || url == Some("") then Failure(NullOrEmptyUrl)
    else
      var m := MatchGameUrl(url.value, alts);
      if m == None then Failure(UrlNotRecognised)
      else
        var sanitized := WithSlash(url.value[..m.value]);
        var id := ForeignIdOf(sanitized);
        if id == None then Failure(NoForeignId) else Success((sanitized, id.value))
  }

  /** A match with `.*` stopping at `p` is the alternatives' match just after ".com/". */
  lemma MatchAtAlternative(s: string, p: nat, alts: seq<string>)
    requires MatchAt(s, p, alts) != None
    ensures p + 5 <= |s| && MatchAt(s, p, alts) == FirstAlternative(s, p + 5, alts)
  {
    assert HasAt(s, p, ".com/");
    assert |".com/"| == 5;
  }

  /** A digit run of exactly `n` characters, ended by a non-digit or the end of `t`. */
  lemma {:induction false} DigitRunExact(t: string, d: nat, n: nat)
    requires d + n <= |t|
    requires forall k :: d <= k < d + n ==> IsDigit(t[k])
    requires d + n == |t| || !IsDigit(t[d + n])
    ensures DigitRun(t, d) == n
    decreases n
  {
    if n > 0 { DigitRunExact(t, d + 1, n - 1); }
  }

  /** The sanitised URL always holds a foreign id: `ExtractKeyValues` never fails for want of one. */
  lemma SanitizedUrlHasForeignId(url: string, alts: seq<string>)
    requires url != ""
    requires MatchGameUrl(url, alts) != None
    ensures ExtractKeyValues(Some(url), alts).Success?
  {
    var n := MatchGameUrl(url, alts).value;
    assert n <= |url|;
    NoForeignIdCase(url, alts);
    MatchGameUrlEndsWithId(url, alts);
    var d: nat :| 0 < d <= |url| && url[d - 1] == '/' && IdTail(url, d) == Some(n);
    IdTailHasForeignId(url, d, n);
  }

  /** A non-empty URL is read iff the game-URL pattern matches it. */
  lemma ReadIffMatched(url: string, alts: seq<string>)
    ensures url != "" ==> (ExtractKeyValues(Some(url), alts).Success? <==> MatchGameUrl(url, alts) != None)
  {
    if url != "" && MatchGameUrl(url, alts) != None {
      SanitizedUrlHasForeignId(url, alts);
    }
  }

  /** A sanitised match that holds a foreign id is accepted. */
  lemma NoForeignIdCase(url: string, alts: seq<string>)
    requires url != "" && MatchGameUrl(url, alts) != None
    ensures ExtractKeyValues(Some(url), alts).Success?
      <== ForeignIdOf(WithSlash(url[..MatchGameUrl(url, alts).value])) != None
  {
  }

  /** A game-URL match ends in the id digits. */
  lemma MatchGameUrlEndsWithId(s: string, alts: seq<string>)
    requires MatchGameUrl(s, alts) != None
    ensures MatchGameUrl(s, alts).value <= |s| && EndsWithId(s, MatchGameUrl(s, alts).value)
  {
    var p: nat :| MatchGameUrl(s, alts) == MatchAt(s, p, alts);
    MatchAtAlternative(s, p, alts);
  }

  /** The id digits at the end of a match are a foreign-id match of the sanitised URL. */
  lemma IdTailHasForeignId(url: string, d: nat, n: nat)
    requires 0 < d <= |url| && url[d - 1] == '/' && IdTail(url, d) == Some(n)
    ensures ForeignIdOf(WithSlash(url[..n])) != None
  {
    var run := DigitRun(url, d);
    DigitRunDigits(url, d);
    var matched := url[..n];
    var sanitized := WithSlash(matched);
    assert d + run <= n;
    assert sanitized[..n] == matched;
    if d + run < |url| && url[d + run] == '/' {
      assert n == d + run + 1;
      assert sanitized[d + run] == '/';
    } else {
      assert n == d + run;
      assert IsDigit(matched[|matched| - 1]);
      assert sanitized == matched + "/";
      assert sanitized[d + run] == '/';
    }
    forall k | d <= k < d + run ensures IsDigit(sanitized[k]) {
      assert sanitized[k] == url[k];
    }
    DigitRunExact(sanitized, d, run);
    assert IdAt(sanitized, d - 1);
  }

  /** ".com/" then `alt + "/"` is an occurrence of ".com/" + `alt` + "/". */
  lemma HasAtConcat(s: string, p: nat, alt: string)
    requires HasAt(s, p, ".com/") && HasAt(s, p + 5, alt + "/")
    ensures HasAt(s, p, ".com/" + alt + "/")
  {
    assert s[p..p + 5 + |alt| + 1] == s[p..p + 5] + s[p + 5..p + 5 + |alt| + 1];
  }

  /** With only "sandbox" allowed, a URL with no ".com/sandbox/" is never recognised. */
  lemma SandboxOnlyRejectsOtherUrls(s: string)
    requires forall p: nat :: !HasAt(s, p, ".com/sandbox/")
    ensures MatchGameUrl(s, ["sandbox"]) == None
  {
    forall p: nat ensures MatchAt(s, p, ["sandbox"]) == None {
      NoSandboxAt(s, p);
    }
  }

  /** Without ".com/sandbox/" at `p`, the pattern with only "sandbox" does not match at `p`. */
  lemma NoSandboxAt(s: string, p: nat)
    requires !HasAt(s, p, ".com/sandbox/")
    ensures MatchAt(s, p, ["sandbox"]) == None
  {
    if ComAt(s, p) {
      assert p + 5 <= |s| by { assert |".com/"| == 5; }
      if HasAt(s, p + 5, "sandbox/") { HasAtConcat(s, p, "sandbox"); }
      OnlyAlternativeMissing(s, p + 5, "sandbox");
    }
  }

  /** A single alternative that does not follow `q` gives no match there. */
  lemma OnlyAlternativeMissing(s: string, q: nat, alt: string)
    requires q <= |s| && !HasAt(s, q, alt + "/")
    ensures FirstAlternative(s, q, [alt]) == None
  {
    assert MatchAfterCom(s, q, [alt][0]) == None;
  }
}
