/**
 * DiploDataManager.cs: registering games, looking them up, and merging a
 * freshly scraped move-set into a game's turn history.
 *
 * Each operation that changes the database is a pure transition on the
 * stored games and the id counter (`Register`, `Upsert`, `Delete`), with
 * lemmas about it; the `GameStore` class holds that state and its methods
 * perform the source's steps and are proved equal to the transitions.
 */
module DataManager {
  import opened Wrappers
  import opened Diplo
  import Urls

  /** The `(?:sandbox|game)` alternation of `UrlSanitizationPattern`. */
  const Alternatives: seq<string> := ["sandbox", "game"]

  const AlreadyTracked: string := "Game already tracked."
  const NoSuchGame: string := "No such game"
  const NotAuthorized: string := "User is not authorized to remove this game."

  /** What `UpsertMoveSetAsync` throws. */
  datatype UpsertError =
    | BadUrl(key: Urls.KeyError)   // from `ExtractKeyValues`
    | NoGameForUrl                 // the `ApplicationException` for a missing game
    | PreviousTurnNotFound         // `First` finding no move-set with the previous id

  /** A state change: what the operation returns, and the new games and id counter. */
  datatype Step<T> = Step(result: T, games: seq<Game>, nextId: Id)

  /** `FirstOrDefault`/`First` by position: the first index whose element satisfies `p`. */
  function First<T>(s: seq<T>, p: T -> bool): (r: Option<nat>)
    ensures r == None <==> forall i :: 0 <= i < |s| ==> !p(s[i])
    ensures r != None ==> r.value < |s| && p(s[r.value])
    ensures r != None ==> forall i :: 0 <= i < r.value ==> !p(s[i])
  {
    if |s| == 0 then None
    else if p(s[0]) then Some(0)
    else match First(s[1..], p)
      case None => None
      case Some(i) => Some(i + 1)
  }

  /**
   * The store's numbering: every id was drawn from the counter (so lies
   * below it, and is never `Guid.Empty`), game ids are distinct, and the
   * move-set ids of each game are distinct.
   */
  predicate WellNumbered(games: seq<Game>, nextId: Id) {
    && EmptyId < nextId
    && (forall i :: 0 <= i < |games| ==> EmptyId < games[i].id < nextId && SetsNumbered(games[i].moveSets, nextId))
    && (forall i, j :: 0 <= i < j < |games| ==> games[i].id != games[j].id)
  }

  predicate SetsNumbered(sets: seq<MoveSet>, nextId: Id) {
    (forall j :: 0 <= j < |sets| ==> EmptyId < sets[j].id < nextId)
    && (forall a, b :: 0 <= a < b < |sets| ==> sets[a].id != sets[b].id)
  }

  // ---------------------------------------------------------------- lookups

  /** `ExtractKeyValues` with this file's pattern: the sanitised URL and the foreign id. */
  function KeyValues(url: string): (r: Result<(string, string), Urls.KeyError>)
    ensures url == "" ==> r == Failure(Urls.NullOrEmptyUrl)
    ensures url != "" ==> (r.Success? <==> Urls.MatchGameUrl(url, Alternatives) != None)
    ensures r.Success? ==> r.value.0 == Urls.WithSlash(url[..Urls.MatchGameUrl(url, Alternatives).value])
    ensures r.Success? ==> Some(r.value.1) == Urls.ForeignIdOf(r.value.0)
  {
    Urls.ReadIffMatched(url, Alternatives);
    Urls.ExtractKeyValues(Some(url), Alternatives)
  }

  /** `GetGameAsync(string url)`, by position, given the URL's key values: the first game with the foreign id. */
  function GameIndexFor(games: seq<Game>, key: Result<(string, string), Urls.KeyError>): (r: Result<Option<nat>, Urls.KeyError>)
    ensures r.Failure? <==> key.Failure?
    ensures r.Failure? ==> r.error == key.error
    ensures r.Success? && r.value != None ==> (r.value.value < |games| && games[r.value.value].foreignId == key.value.1)
    ensures r == Success(None) <==> (key.Success? && forall i :: 0 <= i < |games| ==> games[i].foreignId != key.value.1)
  {
    var k :- key;
    Success(First(games, (g: Game) => g.foreignId == k.1))
  }

  /** `GetGameAsync(string url)`. */
  function GetGameByUrl(games: seq<Game>, url: string): (r: Result<Option<Game>, Urls.KeyError>)
    ensures r.Failure? <==> KeyValues(url).Failure?
    ensures r.Success? && r.value != None ==> (r.value.value in games && r.value.value.foreignId == KeyValues(url).value.1)
    ensures r.Success? ==> (r.value == None <==> forall g :: g in games ==> g.foreignId != KeyValues(url).value.1)
  {
    var i :- GameIndexFor(games, KeyValues(url));
    Success(if i == None then None else Some(games[i.value]))
  }

  /** `GetGameAsync(Guid id)`. */
  function GetGameById(games: seq<Game>, id: Id): (r: Option<Game>)
    ensures r == None <==> forall i :: 0 <= i < |games| ==> games[i].id != id
    ensures r != None ==> r.value in games && r.value.id == id
  {
    match First(games, (g: Game) => g.id == id)
    case None => None
    case Some(i) => Some(games[i])
  }

  /** `GetMovesAsync`: the game's first move-set with the id; null when either is missing. */
  function GetMoves(games: seq<Game>, gameId: Id, moveSetId: Id): (r: Option<MoveSet>)
    ensures r == None <==> (GetGameById(games, gameId) == None
      || forall j :: 0 <= j < |GetGameById(games, gameId).value.moveSets| ==> GetGameById(games, gameId).value.moveSets[j].id != moveSetId)
    ensures r != None ==> r.value in GetGameById(games, gameId).value.moveSets && r.value.id == moveSetId
  {
    match GetGameById(games, gameId)
    case None => None
    case Some(g) =>
      match First(g.moveSets, (ms: MoveSet) => ms.id == moveSetId)
      case None => None
      case Some(j) => Some(g.moveSets[j])
  }

  /** With distinct game ids, the game stored at a position is the one found by its id. */
  lemma FoundById(games: seq<Game>, nextId: Id, i: nat)
    requires WellNumbered(games, nextId) && i < |games|
    ensures GetGameById(games, games[i].id) == Some(games[i])
  {
    var k := First(games, (g: Game) => g.id == games[i].id);
    assert k != None;
    assert k.value == i;
  }

  /** With distinct move-set ids, the move-set stored at a position is the one found by its id. */
  lemma FoundMoves(games: seq<Game>, nextId: Id, i: nat, j: nat)
    requires WellNumbered(games, nextId) && i < |games| && j < |games[i].moveSets|
    ensures GetMoves(games, games[i].id, games[i].moveSets[j].id) == Some(games[i].moveSets[j])
  {
    FoundById(games, nextId, i);
    var sets := games[i].moveSets;
    assert SetsNumbered(sets, nextId);
    var k := First(sets, (ms: MoveSet) => ms.id == sets[j].id);
    assert k != None;
    assert k.value == j;
  }

  // ----------------------------------------------------------- registration

  /**
   * `RegisterGameAsync`: a game whose foreign id is stored already is
   * refused with a reason; otherwise one game is added with the sanitised
   * URL, the foreign id, the registration time and the owner.
   */
  function Register(games: seq<Game>, nextId: Id, key: Result<(string, string), Urls.KeyError>, user: UserId, now: Time)
    : (r: Step<Result<(bool, Option<string>), Urls.KeyError>>)
    ensures r.result.Failure? <==> key.Failure?
    ensures key.Failure? ==> r.result.error == key.error
    ensures games <= r.games && |r.games| <= |games| + 1 && r.nextId == nextId + (|r.games| - |games|)
    ensures r.result == Success((true, None)) <==> |r.games| == |games| + 1
    ensures r.result.Success? && |r.games| == |games| ==> r.result.value == (false, Some(AlreadyTracked))
    ensures |r.games| == |games| + 1 ==> r.games[|games|] == Game(nextId, key.value.0, key.value.1, now, Some(user), [])
    ensures |r.games| == |games| + 1 ==> forall i :: 0 <= i < |games| ==> games[i].foreignId != r.games[|games|].foreignId
  {
    match key
    case Failure(e) => Step(Failure(e), games, nextId)
    case Success(key) =>
      if exists i :: 0 <= i < |games| && games[i].foreignId == key.1 then
        Step(Success((false, Some(AlreadyTracked))), games, nextId)
      else
        Step(Success((true, None)), games + [Game(nextId, key.0, key.1, now, Some(user), [])], nextId + 1)
  }

  /** A URL that cannot be read is refused and nothing is stored. */
  lemma RegisterBadUrl(games: seq<Game>, nextId: Id, key: Result<(string, string), Urls.KeyError>, user: UserId, now: Time)
    requires key.Failure?
    ensures var s := Register(games, nextId, key, user, now);
      s.result == Failure(key.error) && s.games == games && s.nextId == nextId
  {
  }

  /** A game whose foreign id is tracked already is refused and nothing is stored. */
  lemma RegisterRefusesTrackedGame(games: seq<Game>, nextId: Id, key: Result<(string, string), Urls.KeyError>, user: UserId, now: Time, i: nat)
    requires key.Success?
    requires i < |games| && games[i].foreignId == key.value.1
    ensures var s := Register(games, nextId, key, user, now);
      s.result == Success((false, Some(AlreadyTracked))) && s.games == games && s.nextId == nextId
  {
  }

  /**
   * A new game is added exactly once, last, with the sanitised URL, its
   * foreign id, the time, the owner and no move-sets; the lookup by URL
   * then finds it, and a second registration is refused.
   */
  lemma RegisterAddsOneGame(games: seq<Game>, nextId: Id, key: Result<(string, string), Urls.KeyError>, user: UserId, now: Time)
    requires key.Success?
    requires forall i :: 0 <= i < |games| ==> games[i].foreignId != key.value.1
    ensures var s := Register(games, nextId, key, user, now);
      && s.result == Success((true, None))
      && s.games == games + [Game(nextId, key.value.0, key.value.1, now, Some(user), [])]
      && s.nextId == nextId + 1
      && GameIndexFor(s.games, key) == Success(Some(|games|))
      && Register(s.games, s.nextId, key, user, now).result == Success((false, Some(AlreadyTracked)))
  {
    var s := Register(games, nextId, key, user, now);
    var k := First(s.games, (g: Game) => g.foreignId == key.value.1);
    assert s.games[|games|].foreignId == key.value.1;
    assert k == Some(|games|);
    assert exists i :: 0 <= i < |s.games| && s.games[i].foreignId == key.value.1;
  }

  /** Registration keeps the store well numbered. */
  lemma RegisterKeepsNumbering(games: seq<Game>, nextId: Id, key: Result<(string, string), Urls.KeyError>, user: UserId, now: Time)
    requires WellNumbered(games, nextId)
    ensures var s := Register(games, nextId, key, user, now);
      WellNumbered(s.games, s.nextId) && s.nextId >= nextId
  {
    var s := Register(games, nextId, key, user, now);
    if key.Success? && !(exists i :: 0 <= i < |games| && games[i].foreignId == key.value.1) {
      assert s.games == games + [Game(nextId, key.value.0, key.value.1, now, Some(user), [])];
      forall i | 0 <= i < |s.games|
        ensures EmptyId < s.games[i].id < s.nextId && SetsNumbered(s.games[i].moveSets, s.nextId)
      {
        if i < |games| {
          assert s.games[i] == games[i];
          assert SetsNumbered(games[i].moveSets, nextId);
        } else {
          assert s.games[i].id == nextId && s.games[i].moveSets == [];
        }
      }
    }
  }

  // ------------------------------------------------------------------ upsert

  /** The nullable `DateTimeOffset` order of `OrderBy(ms => ms.FirstSeen)`: null sorts first. */
  predicate Earlier(a: Option<Time>, b: Option<Time>) {
    b != None && (a == None || a.value < b.value)
  }

  /** The `Where` filter: a move-set of the same year and season. */
  predicate SameTurn(ms: MoveSet, year: int, seasonIndex: int) {
    ms.year == year && ms.seasonIndex == seasonIndex
  }

  /**
   * `setsForThisTurn.LastOrDefault()` over the first `n` move-sets: the
   * stable sort by `FirstSeen` puts last the latest of the maximal ones, so
   * the active set is a same-turn set no other same-turn set was first seen
   * after, and every later same-turn set was first seen strictly before it.
   */
  function ActiveIndex(sets: seq<MoveSet>, year: int, seasonIndex: int, n: nat): (r: Option<nat>)
    requires n <= |sets|
    ensures r == None <==> forall j :: 0 <= j < n ==> !SameTurn(sets[j], year, seasonIndex)
    ensures r != None ==> r.value < n && SameTurn(sets[r.value], year, seasonIndex)
    ensures r != None ==> forall j :: 0 <= j < n && SameTurn(sets[j], year, seasonIndex) ==>
      !Earlier(sets[r.value].firstSeen, sets[j].firstSeen)
    ensures r != None ==> forall j :: r.value < j < n && SameTurn(sets[j], year, seasonIndex) ==>
      Earlier(sets[j].firstSeen, sets[r.value].firstSeen)
  {
    if n == 0 then None
    else
      var best := ActiveIndex(sets, year, seasonIndex, n - 1);
      if SameTurn(sets[n - 1], year, seasonIndex)
        && (best == None || !Earlier(sets[n - 1].firstSeen, sets[best.value].firstSeen))
      then Some(n - 1)
      else best
  }

  /**
   * The merge test against the active set: the same previous set, the same
   * pre-retreat hash, and, once the active set is satisfied, the same full hash.
   */
  predicate Mergeable(active: MoveSet, candidate: MoveSet, ops: OrderSetOps): (r: bool)
    ensures r ==> active.previous == candidate.previous && active.preRetreatHash == candidate.preRetreatHash
    ensures r && ops.satisfied(active) ==> active.fullHash == candidate.fullHash
    ensures (active.previous == candidate.previous && active.preRetreatHash == candidate.preRetreatHash
             && active.fullHash == candidate.fullHash) ==> r
    ensures !ops.satisfied(active) && active.previous == candidate.previous && active.preRetreatHash == candidate.preRetreatHash ==> r
  {
    && active.previous == candidate.previous
    && active.preRetreatHash == candidate.preRetreatHash
    && (!ops.satisfied(active) || active.fullHash == candidate.fullHash)
  }

  /** The new move-set with `PreviousSet` set from the supplied previous id, if any. */
  function WithPrevious(game: Game, newSet: MoveSet, previousTurnId: Option<Id>): (r: Result<MoveSet, UpsertError>)
    ensures previousTurnId == None ==> r == Success(newSet)
    ensures previousTurnId != None ==> (r.Failure? <==> forall j :: 0 <= j < |game.moveSets| ==> game.moveSets[j].id != previousTurnId.value)
    ensures r.Failure? ==> r.error == PreviousTurnNotFound
    ensures previousTurnId != None && r.Success? ==> r.value == newSet.(previous := previousTurnId)
  {
    match previousTurnId
    case None => Success(newSet)
    case Some(p) =>
      match First(game.moveSets, (ms: MoveSet) => ms.id == p)
      case None => Failure(PreviousTurnNotFound)
      case Some(k) => Success(newSet.(previous := Some(game.moveSets[k].id)))
  }

  /** `UpdateMoveSetAsync` on the active set. */
  function Updated(current: MoveSet, candidate: MoveSet, ops: OrderSetOps): (r: MoveSet)
    ensures r.(orders := current.orders, state := current.state, lastSeen := current.lastSeen) == current
    ensures r.state == candidate.state && r.lastSeen == candidate.lastSeen
    ensures current.orders <= r.orders
    ensures ops.setHash(current.orders) == ops.setHash(candidate.orders) ==> r.orders == current.orders
    ensures ops.setHash(current.orders) != ops.setHash(candidate.orders) ==>
      r.orders[|current.orders|..] == ops.onlyRetreats(candidate.orders)
  {
    var orders := if ops.setHash(current.orders) != ops.setHash(candidate.orders)
      then current.orders + ops.onlyRetreats(candidate.orders)
      else current.orders;
    current.(orders := orders, state := candidate.state, lastSeen := candidate.lastSeen)
  }

  /** `InsertNewMoveSetAsync`'s move-set: first seen when last seen, under a fresh id. */
  function Inserted(candidate: MoveSet, id: Id): (r: MoveSet)
    ensures r.id == id && r.firstSeen == r.lastSeen && r.lastSeen == candidate.lastSeen
    ensures r.(id := candidate.id, firstSeen := candidate.firstSeen) == candidate
  {
    candidate.(id := id, firstSeen := candidate.lastSeen)
  }

  /**
   * `UpsertMoveSetAsync`: find the game by URL, set the previous set, then
   * update the active set when the merge test holds and insert a new set
   * otherwise; the id of the updated or inserted set is returned.
   */
  function Upsert(games: seq<Game>, nextId: Id, ops: OrderSetOps, key: Result<(string, string), Urls.KeyError>, newSet: MoveSet, previousTurnId: Option<Id>)
    : (r: Step<Result<Id, UpsertError>>)
    ensures r.result.Failure? ==> r.games == games && r.nextId == nextId
    ensures key.Failure? ==> r.result == Failure(BadUrl(key.error))
    ensures r.result.Success? ==> GameIndexFor(games, key).Success? && GameIndexFor(games, key).value != None
    ensures |r.games| == |games| && (r.nextId == nextId || r.nextId == nextId + 1)
    ensures forall i :: 0 <= i < |games| ==> r.games[i].(moveSets := games[i].moveSets) == games[i]
  {
    match GameIndexFor(games, key)
    case Failure(e) => Step(Failure(BadUrl(e)), games, nextId)
    case Success(None) => Step(Failure(NoGameForUrl), games, nextId)
    case Success(Some(gi)) =>
      var game := games[gi];
      match WithPrevious(game, newSet, previousTurnId)
      case Failure(e) => Step(Failure(e), games, nextId)
      case Success(candidate) =>
        var m := MergeSets(game.moveSets, nextId, ops, candidate);
        Step(Success(m.0), games[gi := game.(moveSets := m.1)], m.2)
  }

  /**
   * The game's part of the upsert: the id of the updated or inserted set,
   * the game's new move-sets, and the new id counter.
   */
  function MergeSets(sets: seq<MoveSet>, nextId: Id, ops: OrderSetOps, candidate: MoveSet): (r: (Id, seq<MoveSet>, Id))
    ensures r.2 == nextId || r.2 == nextId + 1
    ensures r.2 == nextId + 1 ==> r.0 == nextId && r.1 == sets + [Inserted(candidate, nextId)]
    ensures r.2 == nextId ==> exists j :: (0 <= j < |sets| && SameTurn(sets[j], candidate.year, candidate.seasonIndex)
      && Mergeable(sets[j], candidate, ops) && r.0 == sets[j].id && r.1 == sets[j := Updated(sets[j], candidate, ops)])
    ensures (forall j :: 0 <= j < |sets| ==> !SameTurn(sets[j], candidate.year, candidate.seasonIndex)) ==> r.2 == nextId + 1
  {
    var active := ActiveIndex(sets, candidate.year, candidate.seasonIndex, |sets|);
    if active != None && Mergeable(sets[active.value], candidate, ops) then
      var ai := active.value;
      (sets[ai].id, sets[ai := Updated(sets[ai], candidate, ops)], nextId)
    else
      (nextId, sets + [Inserted(candidate, nextId)], nextId + 1)
  }

  /** The upsert fails, changing nothing, exactly when the URL, the game or the previous set is missing. */
  lemma UpsertErrors(games: seq<Game>, nextId: Id, ops: OrderSetOps, key: Result<(string, string), Urls.KeyError>, newSet: MoveSet, previousTurnId: Option<Id>)
    ensures var s := Upsert(games, nextId, ops, key, newSet, previousTurnId);
      && (s.result.Failure? ==> s.games == games && s.nextId == nextId)
      && (key.Failure? <==> s.result.Failure? && s.result.error.BadUrl?)
      && (key.Failure? ==> s.result == Failure(BadUrl(key.error)))
      && (s.result == Failure(NoGameForUrl) <==> key.Success? && forall i :: 0 <= i < |games| ==> games[i].foreignId != key.value.1)
      && (s.result == Failure(PreviousTurnNotFound) <==>
            GameIndexFor(games, key).Success? && GameIndexFor(games, key).value != None && previousTurnId != None
            && var game := games[GameIndexFor(games, key).value.value];
               forall j :: 0 <= j < |game.moveSets| ==> game.moveSets[j].id != previousTurnId.value)
  {
  }

  /**
   * The update path, taken when the active set passes the merge test: the
   * game keeps its number of move-sets and every other set; the active set
   * keeps its id, turn, previous set, first-seen time and both hashes and
   * its old orders as a prefix, gains the new retreats exactly when the two
   * order-set hashes differ, and takes the new state and last-seen time;
   * its id is returned and no other game changes.
   */
  lemma UpsertUpdatePath(games: seq<Game>, nextId: Id, ops: OrderSetOps, key: Result<(string, string), Urls.KeyError>, newSet: MoveSet, previousTurnId: Option<Id>,
                         gi: nat, candidate: MoveSet, ai: nat)
    requires GameIndexFor(games, key) == Success(Some(gi))
    requires WithPrevious(games[gi], newSet, previousTurnId) == Success(candidate)
    requires ActiveIndex(games[gi].moveSets, newSet.year, newSet.seasonIndex, |games[gi].moveSets|) == Some(ai)
    requires Mergeable(games[gi].moveSets[ai], candidate, ops)
    ensures var s := Upsert(games, nextId, ops, key, newSet, previousTurnId);
      var active := games[gi].moveSets[ai];
      var sets := s.games[gi].moveSets;
      && s.result == Success(active.id) && s.nextId == nextId
      && |s.games| == |games| && (forall i :: 0 <= i < |games| && i != gi ==> s.games[i] == games[i])
      && s.games[gi] == games[gi].(moveSets := sets)
      && |sets| == |games[gi].moveSets| && (forall j :: 0 <= j < |sets| && j != ai ==> sets[j] == games[gi].moveSets[j])
      && sets[ai].id == active.id && sets[ai].year == active.year && sets[ai].seasonName == active.seasonName
      && sets[ai].seasonIndex == active.seasonIndex && sets[ai].previous == active.previous
      && sets[ai].firstSeen == active.firstSeen
      && sets[ai].preRetreatHash == active.preRetreatHash && sets[ai].fullHash == active.fullHash
      && active.orders <= sets[ai].orders
      && (ops.setHash(active.orders) != ops.setHash(newSet.orders) ==> sets[ai].orders == active.orders + ops.onlyRetreats(newSet.orders))
      && (ops.setHash(active.orders) == ops.setHash(newSet.orders) ==> sets[ai].orders == active.orders)
      && sets[ai].state == newSet.state && sets[ai].lastSeen == newSet.lastSeen
  {
  }

  /**
   * The insert path, taken when there is no active set or it fails the
   * merge test: the game gains exactly one move-set, last, which is the new
   * set with its previous set, first seen when it was last seen, under a
   * fresh id; that id is returned and no other game changes.
   */
  lemma UpsertInsertPath(games: seq<Game>, nextId: Id, ops: OrderSetOps, key: Result<(string, string), Urls.KeyError>, newSet: MoveSet, previousTurnId: Option<Id>,
                         gi: nat, candidate: MoveSet)
    requires GameIndexFor(games, key) == Success(Some(gi))
    requires WithPrevious(games[gi], newSet, previousTurnId) == Success(candidate)
    requires var active := ActiveIndex(games[gi].moveSets, newSet.year, newSet.seasonIndex, |games[gi].moveSets|);
      active == None || !Mergeable(games[gi].moveSets[active.value], candidate, ops)
    ensures var s := Upsert(games, nextId, ops, key, newSet, previousTurnId);
      var sets := s.games[gi].moveSets;
      && s.result == Success(nextId) && s.nextId == nextId + 1
      && |s.games| == |games| && (forall i :: 0 <= i < |games| && i != gi ==> s.games[i] == games[i])
      && s.games[gi] == games[gi].(moveSets := sets)
      && sets == games[gi].moveSets + [sets[|sets| - 1]]
      && sets[|sets| - 1] == candidate.(id := nextId, firstSeen := newSet.lastSeen)
      && sets[|sets| - 1].firstSeen == sets[|sets| - 1].lastSeen
      && (previousTurnId != None ==> sets[|sets| - 1].previous == previousTurnId)
  {
  }

  /** The upsert keeps the store well numbered; in particular an inserted set's id was used by no game or set before. */
  lemma UpsertKeepsNumbering(games: seq<Game>, nextId: Id, ops: OrderSetOps, key: Result<(string, string), Urls.KeyError>, newSet: MoveSet, previousTurnId: Option<Id>)
    requires WellNumbered(games, nextId)
    ensures var s := Upsert(games, nextId, ops, key, newSet, previousTurnId);
      WellNumbered(s.games, s.nextId) && s.nextId >= nextId
  {
    var gk := GameIndexFor(games, key);
    if gk.Success? && gk.value != None {
      var gi := gk.value.value;
      var game := games[gi];
      var wp := WithPrevious(game, newSet, previousTurnId);
      if wp.Success? {
        assert SetsNumbered(game.moveSets, nextId);
        MergeSetsNumbered(game.moveSets, nextId, ops, wp.value);
        var m := MergeSets(game.moveSets, nextId, ops, wp.value);
        ReplaceGameKeepsNumbering(games, nextId, gi, game.(moveSets := m.1), m.2);
      }
    }
  }

  /** Once the game and the previous set are found, the upsert is the game's part of it. */
  lemma UpsertInGame(games: seq<Game>, nextId: Id, ops: OrderSetOps, key: Result<(string, string), Urls.KeyError>, newSet: MoveSet, previousTurnId: Option<Id>,
                     gi: nat, candidate: MoveSet)
    requires GameIndexFor(games, key) == Success(Some(gi))
    requires WithPrevious(games[gi], newSet, previousTurnId) == Success(candidate)
    ensures gi < |games|
    ensures var m := MergeSets(games[gi].moveSets, nextId, ops, candidate);
      Upsert(games, nextId, ops, key, newSet, previousTurnId) == Step(Success(m.0), games[gi := games[gi].(moveSets := m.1)], m.2)
  {
  }

  /** The game's part of the upsert keeps its sets numbered, under a counter no smaller. */
  lemma MergeSetsNumbered(sets: seq<MoveSet>, nextId: Id, ops: OrderSetOps, candidate: MoveSet)
    requires SetsNumbered(sets, nextId) && EmptyId < nextId
    ensures var m := MergeSets(sets, nextId, ops, candidate);
      SetsNumbered(m.1, m.2) && m.2 >= nextId
  {
    var active := ActiveIndex(sets, candidate.year, candidate.seasonIndex, |sets|);
    if active != None && Mergeable(sets[active.value], candidate, ops) {
      var ai := active.value;
      UpdatedSetsNumbered(sets, ai, Updated(sets[ai], candidate, ops), nextId);
    } else {
      AppendedSetsNumbered(sets, Inserted(candidate, nextId), nextId);
    }
  }

  /** A set keeping its id keeps the sets numbered. */
  lemma UpdatedSetsNumbered(sets: seq<MoveSet>, ai: nat, m: MoveSet, n: Id)
    requires SetsNumbered(sets, n) && ai < |sets| && m.id == sets[ai].id
    ensures SetsNumbered(sets[ai := m], n)
  {
    var t := sets[ai := m];
    forall j | 0 <= j < |t| ensures t[j].id == sets[j].id {
    }
  }

  /** A set numbered with the counter, added last, keeps the sets numbered under the next counter. */
  lemma AppendedSetsNumbered(sets: seq<MoveSet>, m: MoveSet, n: Id)
    requires SetsNumbered(sets, n) && EmptyId < n && m.id == n
    ensures SetsNumbered(sets + [m], n + 1)
  {
    var t := sets + [m];
    forall j | 0 <= j < |t| ensures t[j].id == if j < |sets| then sets[j].id else n {
    }
  }

  /** A game replaced by one with the same id and numbered sets, under a counter no smaller, keeps the store well numbered. */
  lemma ReplaceGameKeepsNumbering(games: seq<Game>, nextId: Id, gi: nat, g: Game, nextId': Id)
    requires WellNumbered(games, nextId) && gi < |games| && nextId <= nextId'
    requires g.id == games[gi].id && SetsNumbered(g.moveSets, nextId')
    ensures WellNumbered(games[gi := g], nextId')
  {
    var t := games[gi := g];
    forall i | 0 <= i < |t|
      ensures EmptyId < t[i].id < nextId' && SetsNumbered(t[i].moveSets, nextId')
    {
      if i != gi {
        assert t[i] == games[i];
        assert SetsNumbered(games[i].moveSets, nextId);
      }
    }
    forall i, j | 0 <= i < j < |t| ensures t[i].id != t[j].id {
      assert t[i].id == games[i].id && t[j].id == games[j].id;
    }
  }

  /** In a well-numbered store, the id the upsert returns finds, in the new store, a set showing the new state and last-seen time. */
  lemma UpsertResultIsRetrievable(games: seq<Game>, nextId: Id, ops: OrderSetOps, key: Result<(string, string), Urls.KeyError>, newSet: MoveSet, previousTurnId: Option<Id>)
    requires WellNumbered(games, nextId)
    requires Upsert(games, nextId, ops, key, newSet, previousTurnId).result.Success?
    ensures var s := Upsert(games, nextId, ops, key, newSet, previousTurnId);
      var gi := GameIndexFor(games, key).value.value;
      var found := GetMoves(s.games, games[gi].id, s.result.value);
      found != None && found.value.state == newSet.state && found.value.lastSeen == newSet.lastSeen
        && found.value.year == newSet.year && found.value.seasonIndex == newSet.seasonIndex
  {
    var s := Upsert(games, nextId, ops, key, newSet, previousTurnId);
    UpsertKeepsNumbering(games, nextId, ops, key, newSet, previousTurnId);
    var gi := GameIndexFor(games, key).value.value;
    var candidate := WithPrevious(games[gi], newSet, previousTurnId).value;
    UpsertInGame(games, nextId, ops, key, newSet, previousTurnId, gi, candidate);
    var j := MergeSetsHolds(games[gi].moveSets, nextId, ops, candidate);
    assert s.games[gi].id == games[gi].id && s.games[gi].moveSets[j] == MergeSets(games[gi].moveSets, nextId, ops, candidate).1[j];
    FoundMoves(s.games, s.nextId, gi, j);
  }

  /** The game's part of the upsert leaves, at some position, a set with the returned id, the candidate's turn, state and last-seen time. */
  lemma MergeSetsHolds(sets: seq<MoveSet>, nextId: Id, ops: OrderSetOps, candidate: MoveSet) returns (j: nat)
    ensures var m := MergeSets(sets, nextId, ops, candidate);
      && j < |m.1| && m.1[j].id == m.0 && m.1[j].state == candidate.state && m.1[j].lastSeen == candidate.lastSeen
      && m.1[j].year == candidate.year && m.1[j].seasonIndex == candidate.seasonIndex
  {
    var active := ActiveIndex(sets, candidate.year, candidate.seasonIndex, |sets|);
    if active != None && Mergeable(sets[active.value], candidate, ops) {
      j := active.value;
    } else {
      j := |sets|;
    }
  }

  // ------------------------------------------------------------------ delete

  /** `DeleteGameAsync`: refuse a missing game or a user who does not own it; otherwise remove the game. */
  function Delete(games: seq<Game>, nextId: Id, gameId: Id, user: UserId): (r: Step<(bool, Option<string>)>)
    ensures r.nextId == nextId && (r.result.0 <==> r.result.1 == None)
    ensures !r.result.0 ==> r.games == games
    ensures r.result == (false, Some(NoSuchGame)) <==> forall i :: 0 <= i < |games| ==> games[i].id != gameId
    ensures r.result.0 ==> exists i :: (0 <= i < |games| && games[i].id == gameId && games[i].owner == Some(user)
      && r.games == games[..i] + games[i + 1..])
  {
    match First(games, (g: Game) => g.id == gameId)
    case None => Step((false, Some(NoSuchGame)), games, nextId)
    case Some(i) =>
      if games[i].owner != Some(user) then Step((false, Some(NotAuthorized)), games, nextId)
      else Step((true, None), games[..i] + games[i + 1..], nextId)
  }

  /**
   * A missing game and a foreign owner are refused without change; an
   * owner's delete removes exactly that game, keeping the others in order,
   * after which no game has its id.
   */
  lemma DeleteOutcomes(games: seq<Game>, nextId: Id, gameId: Id, user: UserId)
    requires WellNumbered(games, nextId)
    ensures var s := Delete(games, nextId, gameId, user);
      && (GetGameById(games, gameId) == None ==> s == Step((false, Some(NoSuchGame)), games, nextId))
      && (GetGameById(games, gameId) != None && GetGameById(games, gameId).value.owner != Some(user) ==>
            s == Step((false, Some(NotAuthorized)), games, nextId))
      && (GetGameById(games, gameId) != None && GetGameById(games, gameId).value.owner == Some(user) ==>
            && s.result == (true, None)
            && (exists i :: 0 <= i < |games| && games[i].id == gameId && s.games == games[..i] + games[i + 1..])
            && GetGameById(s.games, gameId) == None
            && WellNumbered(s.games, s.nextId))
  {
    var s := Delete(games, nextId, gameId, user);
    var k := First(games, (g: Game) => g.id == gameId);
    assert GetGameById(games, gameId) == if k == None then None else Some(games[k.value]);
    if k != None && games[k.value].owner == Some(user) {
      var i := k.value;
      var t := games[..i] + games[i + 1..];
      RemoveKeepsNumbering(games, nextId, i);
      assert s == Step((true, None), t, nextId);
      assert GetGameById(t, gameId) == None;
      assert 0 <= i < |games| && games[i].id == gameId && s.games == t;
    }
  }

  /** Removing one game keeps the others in order and well numbered, and leaves none with its id. */
  lemma RemoveKeepsNumbering(games: seq<Game>, nextId: Id, i: nat)
    requires WellNumbered(games, nextId) && i < |games|
    ensures var t := games[..i] + games[i + 1..];
      && WellNumbered(t, nextId)
      && forall j :: 0 <= j < |t| ==> t[j].id != games[i].id
  {
    var t := games[..i] + games[i + 1..];
    forall j | 0 <= j < |t|
      ensures t[j] == (if j < i then games[j] else games[j + 1]) && t[j].id != games[i].id
    {
      if j < i {
        assert games[j].id != games[i].id;
      } else {
        assert games[i].id != games[j + 1].id;
      }
    }
    forall j | 0 <= j < |t| ensures SetsNumbered(t[j].moveSets, nextId) {
      if j < i {
        assert SetsNumbered(games[j].moveSets, nextId);
      } else {
        assert SetsNumbered(games[j + 1].moveSets, nextId);
      }
    }
  }

  // ------------------------------------------------------------------- store

  /** The game tables of `AppDbContext` as `DiploDataManager` sees them. */
  class GameStore {
    var games: seq<Game>
    var nextId: Id
    const ops: OrderSetOps

    predicate Valid()
      reads this
    {
      WellNumbered(games, nextId)
    }

    constructor(ops: OrderSetOps)
      ensures Valid() && games == [] && this.ops == ops
    {
      this.ops := ops;
      games := [];
      nextId := EmptyId + 1;
    }

    /** `RegisterGameAsync`. */
    method RegisterGame(url: string, user: UserId, now: Time) returns (r: Result<(bool, Option<string>), Urls.KeyError>)
      requires Valid()
      modifies this
      ensures Valid()
      ensures Step(r, games, nextId) == Register(old(games), old(nextId), KeyValues(url), user, now)
    {
      r := RegisterWithKey(KeyValues(url), user, now);
    }

    /** `RegisterGameAsync` once `ExtractKeyValues` has run. */
    method RegisterWithKey(keyValues: Result<(string, string), Urls.KeyError>, user: UserId, now: Time)
      returns (r: Result<(bool, Option<string>), Urls.KeyError>)
      requires Valid()
      modifies this
      ensures Valid()
      ensures Step(r, games, nextId) == Register(old(games), old(nextId), keyValues, user, now)
    {
      RegisterKeepsNumbering(games, nextId, keyValues, user, now);
      var key :- keyValues;
      if exists i :: 0 <= i < |games| && games[i].foreignId == key.1 {
        return Success((false, Some(AlreadyTracked)));
      }
      games := games + [Game(nextId, key.0, key.1, now, Some(user), [])];
      nextId := nextId + 1;
      return Success((true, None));
    }

    /** `UpsertMoveSetAsync`. */
    method UpsertMoveSet(gameUrl: string, newSet: MoveSet, previousTurnId: Option<Id>) returns (r: Result<Id, UpsertError>)
      requires Valid()
      modifies this
      ensures Valid()
      ensures Step(r, games, nextId) == Upsert(old(games), old(nextId), ops, KeyValues(gameUrl), newSet, previousTurnId)
    {
      r := UpsertWithKey(KeyValues(gameUrl), newSet, previousTurnId);
    }

    /** `UpsertMoveSetAsync` once `GetGameAsync` has run `ExtractKeyValues`. */
    method UpsertWithKey(keyValues: Result<(string, string), Urls.KeyError>, newSet: MoveSet, previousTurnId: Option<Id>)
      returns (r: Result<Id, UpsertError>)
      requires Valid()
      modifies this
      ensures Valid()
      ensures Step(r, games, nextId) == Upsert(old(games), old(nextId), ops, keyValues, newSet, previousTurnId)
    {
      UpsertKeepsNumbering(games, nextId, ops, keyValues, newSet, previousTurnId);
      var found := GameIndexFor(games, keyValues);
      if found.Failure? {
        return Failure(BadUrl(found.error));
      }
      if found.value == None {
        return Failure(NoGameForUrl);
      }
      var gi := found.value.value;
      var candidate := newSet;
      if previousTurnId != None {
        var k := First(games[gi].moveSets, (ms: MoveSet) => ms.id == previousTurnId.value);
        if k == None {
          return Failure(PreviousTurnNotFound);
        }
        candidate := candidate.(previous := Some(games[gi].moveSets[k.value].id));
      }
      assert WithPrevious(games[gi], newSet, previousTurnId) == Success(candidate);
      UpsertInGame(games, nextId, ops, keyValues, newSet, previousTurnId, gi, candidate);
      r := MergeIntoGame(gi, candidate);
    }

    /** The last step of `UpsertMoveSetAsync`: update the active set when the merge test holds, insert a new set otherwise. */
    method MergeIntoGame(gi: nat, candidate: MoveSet) returns (r: Result<Id, UpsertError>)
      requires gi < |games|
      modifies this
      ensures var m := MergeSets(old(games)[gi].moveSets, old(nextId), ops, candidate);
        r == Success(m.0) && games == old(games)[gi := old(games)[gi].(moveSets := m.1)] && nextId == m.2
    {
      var sets := games[gi].moveSets;
      var active := ActiveIndex(sets, candidate.year, candidate.seasonIndex, |sets|);
      if active != None && Mergeable(sets[active.value], candidate, ops) {
        r := UpdateMoveSet(gi, active.value, candidate);
      } else {
        r := InsertNewMoveSet(gi, candidate);
      }
    }

    /** `InsertNewMoveSetAsync`: add the set to the game, first seen when last seen, under a fresh id. */
    method InsertNewMoveSet(gi: nat, candidate: MoveSet) returns (r: Result<Id, UpsertError>)
      requires gi < |games|
      modifies this
      ensures r == Success(old(nextId)) && nextId == old(nextId) + 1
      ensures games == old(games)[gi := old(games)[gi].(moveSets := old(games)[gi].moveSets + [Inserted(candidate, old(nextId))])]
    {
      var inserted := candidate.(firstSeen := candidate.lastSeen);
      inserted := inserted.(id := nextId);
      nextId := nextId + 1;
      games := games[gi := games[gi].(moveSets := games[gi].moveSets + [inserted])];
      return Success(inserted.id);
    }

    /** `UpdateMoveSetAsync`: append the new retreats when the order sets differ, then overwrite state and last-seen time. */
    method UpdateMoveSet(gi: nat, ai: nat, candidate: MoveSet) returns (r: Result<Id, UpsertError>)
      requires gi < |games| && ai < |games[gi].moveSets|
      modifies this
      ensures r == Success(old(games)[gi].moveSets[ai].id) && nextId == old(nextId)
      ensures games == old(games)[gi := old(games)[gi].(moveSets :=
        old(games)[gi].moveSets[ai := Updated(old(games)[gi].moveSets[ai], candidate, ops)])]
    {
      var target := games[gi].moveSets[ai];
      if ops.setHash(target.orders) != ops.setHash(candidate.orders) {
        target := target.(orders := target.orders + ops.onlyRetreats(candidate.orders));
      }
      target := target.(state := candidate.state);
      target := target.(lastSeen := candidate.lastSeen);
      games := games[gi := games[gi].(moveSets := games[gi].moveSets[ai := target])];
      return Success(target.id);
    }

    /** `DeleteGameAsync`. */
    method DeleteGame(gameId: Id, user: UserId) returns (r: (bool, Option<string>))
      requires Valid()
      modifies this
      ensures Valid()
      ensures Step(r, games, nextId) == Delete(old(games), old(nextId), gameId, user)
    {
      DeleteOutcomes(games, nextId, gameId, user);
      var k := First(games, (g: Game) => g.id == gameId);
      if k == None {
        return (false, Some(NoSuchGame));
      }
      if games[k.value].owner != Some(user) {
        return (false, Some(NotAuthorized));
      }
      games := games[..k.value] + games[k.value + 1..];
      return (true, None);
    }
  }
}
