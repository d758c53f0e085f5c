/**
 * DiploData.cs, the older data manager: a sandbox-only URL pattern and a
 * registration that reports only whether a game was added. It declares the
 * same class as DiploDataManager.cs and so is modelled on its own.
 */
module LegacyData {
  import opened Wrappers
  import opened Diplo
  import Urls

  /** The older `UrlSanitizationPattern` allows only "/sandbox/". */
  const Alternatives: seq<string> := ["sandbox"]

  /** `ExtractKeyValues` with the older pattern. */
  function KeyValues(url: string): (r: Result<(string, string), Urls.KeyError>)
    ensures url == "" ==> r == Failure(Urls.NullOrEmptyUrl)
    ensures url != "" ==> (r.Success? <==> Urls.MatchGameUrl(url, Alternatives) != None)
    ensures r.Success? ==> r.value.0 == Urls.WithSlash(url[..Urls.MatchGameUrl(url, Alternatives).value])
    ensures r.Success? ==> Some(r.value.1) == Urls.ForeignIdOf(r.value.0)
  {
    Urls.ReadIffMatched(url, Alternatives);
    Urls.ExtractKeyValues(Some(url), Alternatives)
  }

  /** A non-empty URL without ".com/sandbox/" in it is not recognised by the older pattern. */
  lemma RejectsNonSandboxUrls(url: string)
    requires url != ""
    requires forall p: nat :: !Urls.HasAt(url, p, ".com/sandbox/")
    ensures KeyValues(url) == Failure(Urls.UrlNotRecognised)
  {
    Urls.SandboxOnlyRejectsOtherUrls(url);
  }

  /** A registration's outcome: whether a game was added, and the new games and id counter. */
  datatype Registration = Registration(result: Result<bool, Urls.KeyError>, games: seq<Game>, nextId: Id)

  /** `RegisterGameAsync` given the URL's key values: add a game unless its foreign id is stored already. */
  function Register(games: seq<Game>, nextId: Id, key: Result<(string, string), Urls.KeyError>, now: Time): (r: Registration)
    ensures r.result.Failure? <==> key.Failure?
    ensures key.Failure? ==> r.result.error == key.error
    ensures games <= r.games && |r.games| <= |games| + 1 && r.nextId == nextId + (|r.games| - |games|)
    ensures r.result == Success(true) <==> |r.games| == |games| + 1
    ensures |r.games| == |games| + 1 ==> r.games[|games|] == Game(nextId, key.value.0, key.value.1, now, None, [])
    ensures |r.games| == |games| + 1 ==> forall i :: 0 <= i < |games| ==> games[i].foreignId != r.games[|games|].foreignId
  {
    match key
    case Failure(e) => Registration(Failure(e), games, nextId)
    case Success((properUrl, foreignId)) =>
      if !(exists i :: 0 <= i < |games| && games[i].foreignId == foreignId) then
        Registration(Success(true), games + [Game(nextId, properUrl, foreignId, now, None, [])], nextId + 1)
      else
        Registration(Success(false), games, nextId)
  }

  /**
   * A URL that cannot be read is refused and a stored foreign id gives
   * false, both without change; otherwise exactly one game is added, with
   * the sanitised URL, the foreign id and the time but no owner, and true
   * is returned. A second registration of the same URL then gives false.
   */
  lemma RegisterOutcomes(games: seq<Game>, nextId: Id, key: Result<(string, string), Urls.KeyError>, now: Time)
    ensures var s := Register(games, nextId, key, now);
      && (key.Failure? ==> s == Registration(Failure(key.error), games, nextId))
      && (key.Success? && (exists i :: 0 <= i < |games| && games[i].foreignId == key.value.1) ==>
            s == Registration(Success(false), games, nextId))
      && (key.Success? && (forall i :: 0 <= i < |games| ==> games[i].foreignId != key.value.1) ==>
            && s.result == Success(true)
            && s.games == games + [Game(nextId, key.value.0, key.value.1, now, None, [])]
            && s.nextId == nextId + 1
            && Register(s.games, s.nextId, key, now).result == Success(false))
  {
    var s := Register(games, nextId, key, now);
    if key.Success? && (forall i :: 0 <= i < |games| ==> games[i].foreignId != key.value.1) {
      assert s.games[|games|].foreignId == key.value.1;
    }
  }

  /** The `Games` table as the older data manager sees it. */
  class LegacyGameStore {
    var games: seq<Game>
    var nextId: Id

    constructor()
      ensures games == [] && nextId == EmptyId + 1
    {
      games := [];
      nextId := EmptyId + 1;
    }

    /** `RegisterGameAsync`; `now` is the clock reading taken for `CreationTime`. */
    method RegisterGame(url: string, now: Time) returns (r: Result<bool, Urls.KeyError>)
      modifies this
      ensures Registration(r, games, nextId) == Register(old(games), old(nextId), KeyValues(url), now)
    {
      r := RegisterWithKey(KeyValues(url), now);
    }

    /** `RegisterGameAsync` once `ExtractKeyValues` has run. */
    method RegisterWithKey(keyValues: Result<(string, string), Urls.KeyError>, now: Time) returns (r: Result<bool, Urls.KeyError>)
      modifies this
      ensures Registration(r, games, nextId) == Register(old(games), old(nextId), keyValues, now)
    {
      var key :- keyValues;
      var (properUrl, foreignId) := key;
      if !(exists i :: 0 <= i < |games| && games[i].foreignId == foreignId) {
        games := games + [Game(nextId, properUrl, foreignId, now, None, [])];
        nextId := nextId + 1;
        return Success(true);
      }
      return Success(false);
    }
  }
}
