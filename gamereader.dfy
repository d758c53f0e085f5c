/**
 * GameReader.cs, `ReadAndPersistGame`: read a game's turn pages in turn
 * order and persist each readable one, passing on the id of the turn
 * persisted last as the previous turn of the next.
 */
module GameReader {
  import opened Wrappers
  import opened Text
  import opened Diplo
  import D = Decoder
  import Extractor
  import Translator
  import DataManager

  /** What `ReadAndPersistGame` lets escape. */
  datatype ReaderError =
    | Extract(extractError: Extractor.ExtractError)
    | Decode(decodeError: D.DecodeError)
    | Translate(translateError: Translator.TranslateError)

  /** The blob `ExtractGamestateStrings` produces for each path, on the given network. */
  function BlobAt(pageScripts: (string, nat) -> seq<string>, gameUrl: string): string -> Result<Option<Extractor.GamestateBlob>, Extractor.ExtractError> {
    (path: string) => Extractor.FromAttempt(Extractor.Outcomes(pageScripts, gameUrl, path), 1)
  }

  /** `BlobDeserializer.GetOrderDtos` with the given payload parsers. */
  function DecodeWith(parseUnits: string -> D.Parsed<D.UnitsDocument>, parseOrders: string -> D.Parsed<D.OrdersDocument>)
    : Extractor.GamestateBlob -> Result<seq<D.OrderDto>, D.DecodeError>
  {
    (blob: Extractor.GamestateBlob) => D.GetOrderDtos(blob.unitLine, blob.orderLine, parseUnits, parseOrders)
  }

  /** How one turn is persisted: `TranslateAndPersistTurn` for the given game URL, as a state change of the store. */
  type Persist = (seq<Game>, Id, Extractor.GamestateBlob, seq<D.OrderDto>, Option<Id>, Time) -> DataManager.Step<Result<Id, Translator.TranslateError>>

  /** `TranslateAndPersistTurn` on the game at `gameUrl`. */
  function PersistWith(ops: OrderSetOps, gameUrl: string): Persist {
    (games: seq<Game>, nextId: Id, blob: Extractor.GamestateBlob, orders: seq<D.OrderDto>, previous: Option<Id>, now: Time) =>
      Translator.Translate(games, nextId, ops, gameUrl, blob, orders, previous, now)
  }

  /**
   * The loop of `ReadAndPersistGame` over the remaining `paths`, as a state
   * change of the store: a missing blob is skipped, a blob is decoded and
   * persisted with `previous` as its previous turn, and the first error
   * stops the loop there. `turns` counts the turns persisted so far and
   * indexes the clock; the result is the last previous-turn id.
   */
  function PersistTurns(games: seq<Game>, nextId: Id, persist: Persist, paths: seq<string>,
                        blobAt: string -> Result<Option<Extractor.GamestateBlob>, Extractor.ExtractError>,
                        decode: Extractor.GamestateBlob -> Result<seq<D.OrderDto>, D.DecodeError>,
                        clock: nat -> Time, turns: nat, previous: Option<Id>): (r: DataManager.Step<Result<Option<Id>, ReaderError>>)
    ensures r.result.Failure? && r.result.error.Extract? ==>
      exists k :: 0 <= k < |paths| && blobAt(paths[k]) == Failure(r.result.error.extractError)
    ensures r.result.Failure? && r.result.error.Decode? ==>
      exists k :: (0 <= k < |paths| && blobAt(paths[k]).Success? && blobAt(paths[k]).value != None
        && decode(blobAt(paths[k]).value.value) == Failure(r.result.error.decodeError))
    decreases |paths|
  {
    if |paths| == 0 then DataManager.Step(Success(previous), games, nextId)
    else match blobAt(paths[0])
      case Failure(e) => DataManager.Step(Failure(Extract(e)), games, nextId)
      case Success(None) => PersistTurns(games, nextId, persist, paths[1..], blobAt, decode, clock, turns, previous)
      case Success(Some(blob)) =>
        match decode(blob)
        case Failure(e) => DataManager.Step(Failure(Decode(e)), games, nextId)
        case Success(orders) =>
          var t := persist(games, nextId, blob, orders, previous, clock(turns));
          match t.result
          case Failure(e) => DataManager.Step(Failure(Translate(e)), t.games, t.nextId)
          case Success(id) => PersistTurns(t.games, t.nextId, persist, paths[1..], blobAt, decode, clock, turns + 1, Some(id))
  }

  /** A path whose page never shows a complete turn changes nothing: inserting it anywhere gives the same outcome. */
  lemma {:induction false} MissingBlobIsSkipped(games: seq<Game>, nextId: Id, persist: Persist, paths: seq<string>,
                                                blobAt: string -> Result<Option<Extractor.GamestateBlob>, Extractor.ExtractError>,
                                                decode: Extractor.GamestateBlob -> Result<seq<D.OrderDto>, D.DecodeError>,
                                                clock: nat -> Time, turns: nat, previous: Option<Id>, i: nat, path: string)
    requires i <= |paths| && blobAt(path) == Success(None)
    ensures PersistTurns(games, nextId, persist, paths[..i] + [path] + paths[i..], blobAt, decode, clock, turns, previous)
         == PersistTurns(games, nextId, persist, paths, blobAt, decode, clock, turns, previous)
    decreases i
  {
    var longer := paths[..i] + [path] + paths[i..];
    if i == 0 {
      assert longer[1..] == paths;
    } else {
      assert longer[0] == paths[0];
      assert longer[1..] == paths[1..][..i - 1] + [path] + paths[1..][i - 1..];
      match blobAt(paths[0])
      case Failure(_) =>
      case Success(None) =>
        MissingBlobIsSkipped(games, nextId, persist, paths[1..], blobAt, decode, clock, turns, previous, i - 1, path);
      case Success(Some(blob)) =>
        match decode(blob)
        case Failure(_) =>
        case Success(orders) =>
          var t := persist(games, nextId, blob, orders, previous, clock(turns));
          if t.result.Success? {
            MissingBlobIsSkipped(t.games, t.nextId, persist, paths[1..], blobAt, decode, clock, turns + 1, Some(t.result.value), i - 1, path);
          }
    }
  }

  /**
   * The next turn read after any number of missing blobs is persisted with
   * the previous-turn id as it stood before them, and the turns after it
   * with the id it returned.
   */
  lemma {:induction false} NextTurnGetsPrevious(games: seq<Game>, nextId: Id, persist: Persist, missing: seq<string>, path: string, rest: seq<string>,
                                                blobAt: string -> Result<Option<Extractor.GamestateBlob>, Extractor.ExtractError>,
                                                decode: Extractor.GamestateBlob -> Result<seq<D.OrderDto>, D.DecodeError>,
                                                clock: nat -> Time, turns: nat, previous: Option<Id>,
                                                blob: Extractor.GamestateBlob, orders: seq<D.OrderDto>)
    requires forall k :: 0 <= k < |missing| ==> blobAt(missing[k]) == Success(None)
    requires blobAt(path) == Success(Some(blob)) && decode(blob) == Success(orders)
    ensures var t := persist(games, nextId, blob, orders, previous, clock(turns));
      PersistTurns(games, nextId, persist, missing + [path] + rest, blobAt, decode, clock, turns, previous)
        == match t.result
           case Failure(e) => DataManager.Step(Failure(Translate(e)), t.games, t.nextId)
           case Success(id) => PersistTurns(t.games, t.nextId, persist, rest, blobAt, decode, clock, turns + 1, Some(id))
    decreases |missing|
  {
    var paths := missing + [path] + rest;
    if |missing| == 0 {
      assert paths[0] == path && paths[1..] == rest;
    } else {
      assert paths[0] == missing[0] && blobAt(paths[0]) == Success(None);
      assert paths[1..] == missing[1..] + [path] + rest;
      NextTurnGetsPrevious(games, nextId, persist, missing[1..], path, rest, blobAt, decode, clock, turns, previous, blob, orders);
    }
  }

  /** Nothing to read changes nothing, and the previous-turn id stays as it was. */
  lemma {:induction false} NoBlobsChangeNothing(games: seq<Game>, nextId: Id, persist: Persist, paths: seq<string>,
                                                blobAt: string -> Result<Option<Extractor.GamestateBlob>, Extractor.ExtractError>,
                                                decode: Extractor.GamestateBlob -> Result<seq<D.OrderDto>, D.DecodeError>,
                                                clock: nat -> Time, turns: nat, previous: Option<Id>)
    requires forall k :: 0 <= k < |paths| ==> blobAt(paths[k]) == Success(None)
    ensures PersistTurns(games, nextId, persist, paths, blobAt, decode, clock, turns, previous)
         == DataManager.Step(Success(previous), games, nextId)
    decreases |paths|
  {
    if |paths| > 0 {
      assert blobAt(paths[0]) == Success(None);
      NoBlobsChangeNothing(games, nextId, persist, paths[1..], blobAt, decode, clock, turns, previous);
    }
  }

  /** Each persisted turn keeps the store well numbered, so the whole loop does. */
  lemma {:induction false} PersistKeepsNumbering(games: seq<Game>, nextId: Id, ops: OrderSetOps, gameUrl: string, paths: seq<string>,
                                                 blobAt: string -> Result<Option<Extractor.GamestateBlob>, Extractor.ExtractError>,
                                                 decode: Extractor.GamestateBlob -> Result<seq<D.OrderDto>, D.DecodeError>,
                                                 clock: nat -> Time, turns: nat, previous: Option<Id>)
    requires DataManager.WellNumbered(games, nextId)
    ensures var s := PersistTurns(games, nextId, PersistWith(ops, gameUrl), paths, blobAt, decode, clock, turns, previous);
      DataManager.WellNumbered(s.games, s.nextId)
    decreases |paths|
  {
    if |paths| > 0 {
      match blobAt(paths[0])
      case Failure(_) =>
      case Success(None) =>
        PersistKeepsNumbering(games, nextId, ops, gameUrl, paths[1..], blobAt, decode, clock, turns, previous);
      case Success(Some(blob)) =>
        match decode(blob)
        case Failure(_) =>
        case Success(orders) =>
          Translator.TranslateKeepsNumbering(games, nextId, ops, gameUrl, blob, orders, previous, clock(turns));
          var t := Translator.Translate(games, nextId, ops, gameUrl, blob, orders, previous, clock(turns));
          assert t == PersistWith(ops, gameUrl)(games, nextId, blob, orders, previous, clock(turns));
          if t.result.Success? {
            PersistKeepsNumbering(t.games, t.nextId, ops, gameUrl, paths[1..], blobAt, decode, clock, turns + 1, Some(t.result.value));
          }
    }
  }

  /** `GameReader`, with its extractor and the translator persisting through a data manager. */
  class GameReader {
    const extractor: Extractor.BlobExtractor
    const persister: Translator.DtoTranslator
    const parseUnits: string -> D.Parsed<D.UnitsDocument>
    const parseOrders: string -> D.Parsed<D.OrdersDocument>

    constructor(network: Extractor.Network, dataManager: DataManager.GameStore,
                parseUnits: string -> D.Parsed<D.UnitsDocument>, parseOrders: string -> D.Parsed<D.OrdersDocument>)
      ensures extractor.network == network && persister.dataManager == dataManager
      ensures this.parseUnits == parseUnits && this.parseOrders == parseOrders
    {
      extractor := new Extractor.BlobExtractor(network);
      persister := new Translator.DtoTranslator(dataManager);
      this.parseUnits := parseUnits;
      this.parseOrders := parseOrders;
    }

    /**
     * `ReadAndPersistGame`; `clock(k)` is the clock reading taken while
     * persisting the k-th turn. A URL the extractor refuses, or a history
     * page it cannot read, changes nothing; otherwise the turns are persisted
     * as `PersistTurns` describes, starting with no previous turn.
     */
    method ReadAndPersistGame(gameUrl: string, clock: nat -> Time) returns (r: Result<(), ReaderError>)
      requires persister.dataManager.Valid()
      modifies extractor, persister.dataManager
      ensures persister.dataManager.Valid()
      ensures IsBlank(gameUrl) ==>
        r == Failure(Extract(Extractor.BlankGameUrl)) && persister.dataManager.games == old(persister.dataManager.games)
        && persister.dataManager.nextId == old(persister.dataManager.nextId)
      ensures !IsBlank(gameUrl) && Extractor.GetAllPagePaths(extractor.network.historyAnchors(gameUrl + Extractor.HistoryPage)).Failure? ==>
        r == Failure(Extract(Extractor.GetAllPagePaths(extractor.network.historyAnchors(gameUrl + Extractor.HistoryPage)).error))
        && persister.dataManager.games == old(persister.dataManager.games)
        && persister.dataManager.nextId == old(persister.dataManager.nextId)
      ensures !IsBlank(gameUrl) && Extractor.GetAllPagePaths(extractor.network.historyAnchors(gameUrl + Extractor.HistoryPage)).Success? ==>
        var s := PersistTurns(old(persister.dataManager.games), old(persister.dataManager.nextId), PersistWith(persister.dataManager.ops, gameUrl),
                              Extractor.GetAllPagePaths(extractor.network.historyAnchors(gameUrl + Extractor.HistoryPage)).value,
                              BlobAt(extractor.network.pageScripts, gameUrl), DecodeWith(parseUnits, parseOrders), clock, 0, None);
        && persister.dataManager.games == s.games && persister.dataManager.nextId == s.nextId
        && (r.Success? <==> s.result.Success?) && (r.Failure? ==> r.error == s.result.error)
    {
      var found := extractor.GetBlobs(gameUrl);
      if found.Failure? {
        return Failure(Extract(found.error));
      }
      r := PersistPaths(gameUrl, found.value, clock);
    }

    /** The `foreach` of `ReadAndPersistGame` over the turn paths `GetBlobs` found. */
    method PersistPaths(gameUrl: string, paths: seq<string>, clock: nat -> Time) returns (r: Result<(), ReaderError>)
      requires persister.dataManager.Valid() && extractor.gameUrl == gameUrl
      modifies persister.dataManager
      ensures persister.dataManager.Valid()
      ensures var s := PersistTurns(old(persister.dataManager.games), old(persister.dataManager.nextId), PersistWith(persister.dataManager.ops, gameUrl),
                                    paths, BlobAt(extractor.network.pageScripts, gameUrl), DecodeWith(parseUnits, parseOrders), clock, 0, None);
        && persister.dataManager.games == s.games && persister.dataManager.nextId == s.nextId
        && (r.Success? <==> s.result.Success?) && (r.Failure? ==> r.error == s.result.error)
    {
      var store := persister.dataManager;
      ghost var blobAt := BlobAt(extractor.network.pageScripts, gameUrl);
      ghost var decode := DecodeWith(parseUnits, parseOrders);
      ghost var persist := PersistWith(store.ops, gameUrl);
      ghost var outcome := PersistTurns(store.games, store.nextId, persist, paths, blobAt, decode, clock, 0, None);
      var previousTurnId: Option<Id> := None;
      var turns := 0;
      var i := 0;
      while i < |paths|
        invariant 0 <= i <= |paths|
        invariant store.Valid()
        invariant outcome == PersistTurns(store.games, store.nextId, persist, paths[i..], blobAt, decode, clock, turns, previousTurnId)
      {
        assert paths[i..][1..] == paths[i + 1..];
        var blob := extractor.ExtractGamestateStrings(paths[i]);
        assert blob == blobAt(paths[i]);
        if blob.Failure? {
          return Failure(Extract(blob.error));
        }
        if blob.value == None {
          i := i + 1;
          continue;
        }
        var orders := D.GetOrderDtos(blob.value.value.unitLine, blob.value.value.orderLine, parseUnits, parseOrders);
        assert orders == decode(blob.value.value);
        if orders.Failure? {
          return Failure(Decode(orders.error));
        }
        ghost var games, nextId := store.games, store.nextId;
        var id := persister.TranslateAndPersistTurn(gameUrl, blob.value.value, orders.value, previousTurnId, clock(turns));
        assert DataManager.Step(id, store.games, store.nextId) == persist(games, nextId, blob.value.value, orders.value, previousTurnId, clock(turns));
        if id.Failure? {
          return Failure(Translate(id.error));
        }
        previousTurnId := Some(id.value);
        turns := turns + 1;
        i := i + 1;
      }
      return Success(());
    }
  }
}
