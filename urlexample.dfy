/**
 * A worked example of `ExtractKeyValues` with the current pattern
 * (".com/sandbox/" or ".com/game/"): a game URL followed by a turn path is
 * cut back to the game URL, and its ten-digit id becomes the foreign id.
 * The URL is built from pieces so that the positions that matter are
 * visible: ".com/" at 19, the '/' before the id at 35, the '/' after it at
 * 46, and so the match ends at 47.
 */
module UrlExample {
  import opened Wrappers
  import opened Text
  import opened Urls

  const ExampleHead: string := "https://foo.example"
  const GamePart: string := "game/"
  const ExampleName: string := "mygame"
  const ExampleId: string := "1234567890"
  const TurnPath: string := "/spring/1901"
  const ExampleTail: string := "com/" + GamePart + ExampleName + "/" + ExampleId + TurnPath
  const ExampleUrl: string := ExampleHead + "." + ExampleTail

  /** No ".com/" starts after 19, so the greedy `.*` has no later place to stop. */
  lemma NoDotAfter(p: nat)
    requires 19 < p
    ensures MatchAt(ExampleUrl, p, ["sandbox", "game"]) == None
  {
    if p + 5 <= |ExampleUrl| {
      assert ExampleUrl[p] != '.' by {
        assert '.' !in ExampleTail;
        assert ExampleUrl[p] == ExampleTail[p - 20];
      }
      assert !HasAt(ExampleUrl, p, ".com/") by {
        assert ExampleUrl[p..p + 5][0] == ExampleUrl[p];
      }
    }
  }

  /** `^https?://[^\n]*` reaches ".com/" at 19. */
  lemma ComAt19()
    ensures ComAt(ExampleUrl, 19)
  {
    assert ExampleUrl[0..4] == ExampleHead[0..4] == "http";
    assert ExampleUrl[19..24] == ".com/";
    assert ExampleUrl[4..19] == ExampleHead[4..];
    assert '\n' !in ExampleHead[4..];
  }

  /** After ".com/", "game/", the group "mygame/", ten digits and '/' match, ending at 47. */
  lemma AfterCom()
    ensures MatchAfterCom(ExampleUrl, 24, "game") == Some(47)
  {
    assert ExampleUrl[24..29] == GamePart;
    assert NextIndexOf(ExampleUrl, 29, '/') == 35 by {
      assert '/' !in ExampleUrl[29..35] by { assert ExampleUrl[29..35] == ExampleName; }
      assert ExampleUrl[35] == '/';
    }
    assert DigitRun(ExampleUrl, 36) == 10 by {
      assert ExampleUrl[36..46] == ExampleId;
      assert ExampleUrl[46] == '/';
      DigitRunExact(ExampleUrl, 36, 10);
    }
  }

  /** "sandbox/" does not follow ".com/", "game/" does. */
  lemma MatchAt19()
    ensures MatchAt(ExampleUrl, 19, ["sandbox", "game"]) == Some(47)
  {
    ComAt19();
    assert MatchAfterCom(ExampleUrl, 24, "sandbox") == None by {
      assert ExampleUrl[24] == 'g';
      assert !HasAt(ExampleUrl, 24, "sandbox/") by { assert ExampleUrl[24..32][0] == ExampleUrl[24]; }
    }
    AfterCom();
    var alts := ["sandbox", "game"];
    assert alts[0] == "sandbox" && alts[1..] == ["game"];
    assert FirstAlternative(ExampleUrl, 24, ["game"]) == Some(47);
    assert FirstAlternative(ExampleUrl, 24, alts) == Some(47);
  }

  /** The whole pattern matches the first 47 characters. */
  lemma MatchEndsAt47()
    ensures MatchGameUrl(ExampleUrl, ["sandbox", "game"]) == Some(47)
  {
    MatchAt19();
    forall p: nat | 19 < p ensures MatchAt(ExampleUrl, p, ["sandbox", "game"]) == None { NoDotAfter(p); }
  }

  /**
   * Ten or more digits between a digit-free prefix ending in '/' and a
   * final '/': the foreign id is those digits.
   */
  lemma IdAfterFront(front: string, id: string, url: string)
    requires url == front + id + "/"
    requires |front| > 0 && front[|front| - 1] == '/' && forall k :: 0 <= k < |front| ==> !IsDigit(front[k])
    requires |id| >= 10 && forall k :: 0 <= k < |id| ==> IsDigit(id[k])
    ensures ForeignIdOf(url) == Some(id)
  {
    var i := |front| - 1;
    assert forall k :: i + 1 <= k < i + 1 + |id| ==> url[k] == id[k - i - 1];
    DigitRunExact(url, i + 1, |id|);
    assert url[i] == '/' && url[i + 1 + |id|] == '/';
    assert IdAt(url, i);
    forall k | 0 <= k < i ensures !IdAt(url, k) {
      assert url[k + 1] == front[k + 1];
    }
    assert url[i + 1..i + 1 + |id|] == id;
    ForeignIdAt(url, i);
  }

  /** The URL up to and including the '/' before the id. */
  const ExampleFront: string := ExampleHead + "." + "com/" + GamePart + ExampleName + "/"

  /** The URL is the front, the id and the turn path. */
  lemma UrlPieces()
    ensures ExampleUrl == ExampleFront + ExampleId + TurnPath
  {
    Regroup(ExampleHead + ".", "com/" + GamePart + ExampleName + "/", ExampleId, TurnPath);
  }

  /** Appending regroups freely. */
  lemma Regroup(a: string, b: string, c: string, d: string)
    ensures a + (b + c + d) == (a + b) + c + d
  {
  }

  /** Cutting `a + b + c` just after the first character of `c`. */
  lemma PrefixThroughFirst(a: string, b: string, c: string)
    requires |c| > 0
    ensures (a + b + c)[..|a| + |b| + 1] == a + b + [c[0]]
  {
  }

  /** The first 47 characters are the front, the id and the '/' that starts the turn path. */
  lemma SanitizedPieces()
    ensures ExampleUrl[..47] == ExampleFront + ExampleId + "/"
  {
    UrlPieces();
    assert |ExampleFront| == 36 && |ExampleId| == 10 && TurnPath[0] == '/';
    PrefixThroughFirst(ExampleFront, ExampleId, TurnPath);
  }

  /** No digit before the id. */
  lemma FrontHasNoDigit()
    ensures forall k :: 0 <= k < |ExampleFront| ==> !IsDigit(ExampleFront[k])
  {
    assert forall c :: c in ExampleFront ==> !IsDigit(c);
    assert forall k :: 0 <= k < |ExampleFront| ==> ExampleFront[k] in ExampleFront;
  }

  /** The foreign-id pattern finds the ten digits. */
  lemma ForeignIdOfSanitized()
    ensures ForeignIdOf(ExampleUrl[..47]) == Some(ExampleId)
  {
    SanitizedPieces();
    FrontHasNoDigit();
    assert ExampleFront[35] == '/';
    IdAfterFront(ExampleFront, ExampleId, ExampleUrl[..47]);
  }

  /** The sanitised URL already ends in '/'. */
  lemma Sanitized()
    ensures WithSlash(ExampleUrl[..47]) == ExampleUrl[..47]
  {
    assert ExampleUrl[46] == '/';
  }

  /** The first 47 characters, written out. */
  lemma SanitizedText()
    ensures ExampleUrl[..47] == "https://foo.example.com/game/mygame/1234567890/"
  {
    SanitizedPieces();
    FrontText();
    LiteralPieces();
  }

  /** The front, written out. */
  lemma FrontText()
    ensures ExampleFront == "https://foo.example.com/game/mygame/"
  {
  }

  /** The written-out text is the front, the id and a '/'. */
  lemma LiteralPieces()
    ensures "https://foo.example.com/game/mygame/" + ExampleId + "/" == "https://foo.example.com/game/mygame/1234567890/"
  {
  }

  /** The worked example: the turn path goes, the sanitised URL keeps its final '/', and the id is read. */
  lemma WorkedExample(url: string, alts: seq<string>)
    requires url == ExampleUrl && alts == ["sandbox", "game"]
    ensures ExtractKeyValues(Some(url), alts) == Success((url[..47], "1234567890"))
  {
    MatchEndsAt47();
    Sanitized();
    ForeignIdOfSanitized();
  }
}
