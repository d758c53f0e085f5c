/**
 * GameReader.DtoTranslator.cs: turning the decoded order records of one
 * turn page into model orders and a move-set, and handing that to the
 * store.
 */
module Translator {
  import opened Wrappers
  import opened Text
  import opened Diplo
  import D = Decoder
  import YearSeasons
  import Extractor
  import DataManager

  /** What translating and persisting a turn throws. */
  datatype TranslateError =
    | UnknownMoveType                                // the `ApplicationException` for `MoveType.Unknown`
    | UnsupportedMoveType(value: D.UnnamedValue)     // the `NotSupportedException` for a value outside the enum
    | BadTurnPath(readError: YearSeasons.ReadError)      // `int.Parse` or the season lookup failing
    | BlankGameUrl                                   // `ArgumentException.ThrowIfNullOrWhiteSpace`
    | Store(upsertError: DataManager.UpsertError)        // thrown by the upsert

  /** `coast?.ToNullIfEmptyOrWhitespace()`: null stays null, a blank coast becomes null, any other is trimmed. */
  function NormaliseCoast(coast: Option<string>): (r: Option<string>)
    ensures r == None <==> (coast == None || IsBlank(coast.value))
    ensures r != None ==> r.value == Trim(coast.value)
  {
    if coast == None then None else ToNullIfEmptyOrWhitespace(coast.value)
  }

  /** `UnitOrderFactory.BuildModelOrder`: the variant by move type, then the common fields. */
  function BuildModelOrder(dto: D.OrderDto): (r: Result<UnitOrder, TranslateError>)
    ensures dto.moveType == D.Unknown <==> r == Failure(UnknownMoveType)
    ensures dto.moveType.Unnamed? <==> (r.Failure? && r.error.UnsupportedMoveType?)
    ensures dto.moveType.Unnamed? ==> r == Failure(UnsupportedMoveType(dto.moveType.value))
    ensures r.Success? ==> (r.value.player == dto.player.GetOr("") && r.value.unitType == dto.unitType.GetOr("")
      && r.value.unit == dto.unit.GetOr("") && r.value.unitCoast == NormaliseCoast(dto.unitCoast)
      && r.value.result == dto.result.GetOr("") && r.value.resultReason == dto.resultReason.GetOr(""))
    ensures dto.moveType == D.Move ==> r.Success? && r.value.variant == Move(dto.to.GetOr(""), NormaliseCoast(dto.toCoast))
    ensures dto.moveType == D.RetreatMove ==> r.Success? && r.value.variant == RetreatMove(dto.to.GetOr(""), NormaliseCoast(dto.toCoast))
    ensures dto.moveType == D.Support && dto.from != None && dto.to != None ==>
      r.Success? && r.value.variant == SupportMove(dto.from.value, dto.to.value)
    ensures dto.moveType == D.Support && (dto.from == None || dto.to == None) ==>
      r.Success? && r.value.variant == SupportHold(dto.from.GetOr(dto.to.GetOr("")))
    ensures dto.moveType == D.Convoy ==> r.Success? && r.value.variant == Convoy(dto.from.GetOr(""), dto.to.GetOr(""))
    ensures dto.moveType == D.Hold ==> r.Success? && r.value.variant == Hold
    ensures dto.moveType == D.Build ==> r.Success? && r.value.variant == Build
    ensures dto.moveType == D.Disband ==> r.Success? && r.value.variant == Disband
    ensures dto.moveType == D.RetreatDisband ==> r.Success? && r.value.variant == RetreatDisband
  {
    var variant :- match dto.moveType
      case Build => Success(Variant.Build)
      case Disband => Success(Variant.Disband)
      case RetreatDisband => Success(Variant.RetreatDisband)
      case Hold => Success(Variant.Hold)
      case Move => Success(Variant.Move(dto.to.GetOr(""), NormaliseCoast(dto.toCoast)))
      case RetreatMove => Success(Variant.RetreatMove(dto.to.GetOr(""), NormaliseCoast(dto.toCoast)))
      case Support =>
        if dto.from != None && dto.to != None then Success(SupportMove(dto.from.value, dto.to.value))
        else Success(SupportHold(dto.from.OrElse(dto.to).GetOr("")))
      case Convoy => Success(Variant.Convoy(dto.from.GetOr(""), dto.to.GetOr("")))
      case Unknown => Failure(UnknownMoveType)
      case Unnamed(v) => Failure(UnsupportedMoveType(v));
    Success(UnitOrder(dto.player.GetOr(""), dto.unitType.GetOr(""), dto.unit.GetOr(""), NormaliseCoast(dto.unitCoast),
                      dto.result.GetOr(""), dto.resultReason.GetOr(""), variant))
  }

  /** The move type an order variant is built from. */
  function MoveTypeOf(v: Variant): D.MoveType {
    match v
    case Hold => D.Hold
    case Move(_, _) => D.Move
    case SupportHold(_) => D.Support
    case SupportMove(_, _) => D.Support
    case Convoy(_, _) => D.Convoy
    case RetreatMove(_, _) => D.RetreatMove
    case RetreatDisband => D.RetreatDisband
    case Build => D.Build
    case Disband => D.Disband
  }

  /** A translated order keeps the move type of its record. */
  lemma TranslationKeepsMoveType(dto: D.OrderDto)
    requires BuildModelOrder(dto).Success?
    ensures MoveTypeOf(BuildModelOrder(dto).value.variant) == dto.moveType
  {
    var v := BuildModelOrder(dto).value.variant;
    VariantOfType(dto.moveType, v);
  }

  /** A variant of the shape each named move type is built into has that move type. */
  lemma VariantOfType(t: D.MoveType, v: Variant)
    requires t != D.Unknown && !t.Unnamed?
    requires t == D.Hold ==> v == Hold
    requires t == D.Build ==> v == Build
    requires t == D.Disband ==> v == Disband
    requires t == D.RetreatDisband ==> v == RetreatDisband
    requires t == D.Move ==> v.Move?
    requires t == D.RetreatMove ==> v.RetreatMove?
    requires t == D.Support ==> v.SupportMove? || v.SupportHold?
    requires t == D.Convoy ==> v.Convoy?
    ensures MoveTypeOf(v) == t
  {
  }

  /** A coast as translation leaves it: absent, or non-empty with no white space at either end. */
  predicate NormalCoast(coast: Option<string>) {
    coast == None || (|coast.value| > 0 && !IsWhiteSpace(coast.value[0]) && !IsWhiteSpace(coast.value[|coast.value| - 1]))
  }

  /** The record an order would be read back from: every field present, the variant's texts in `To`/`From`. */
  function OrderRecord(o: UnitOrder): D.OrderDto {
    var (to, toCoast, from) := match o.variant
      case Move(t, c) => (Some(t), c, None)
      case RetreatMove(t, c) => (Some(t), c, None)
      case SupportHold(s) => (None, None, Some(s))
      case SupportMove(f, t) => (Some(t), None, Some(f))
      case Convoy(f, t) => (Some(t), None, Some(f))
      case _ => (None, None, None);
    D.OrderDto(Some(o.player), Some(o.unitType), Some(o.unit), o.unitCoast, MoveTypeOf(o.variant),
               to, toCoast, from, Some(o.result), Some(o.resultReason), None)
  }

  /** Translation loses nothing: every model order with normal coasts is translated from its own record. */
  lemma TranslationRoundTrip(o: UnitOrder)
    requires NormalCoast(o.unitCoast)
    requires (o.variant.Move? || o.variant.RetreatMove?) ==> NormalCoast(o.variant.toCoast)
    ensures BuildModelOrder(OrderRecord(o)) == Success(o)
  {
    var d := OrderRecord(o);
    NormalCoastIsKept(o.unitCoast);
    assert d.player == Some(o.player) && d.unitType == Some(o.unitType) && d.unit == Some(o.unit)
      && d.unitCoast == o.unitCoast && d.result == Some(o.result) && d.resultReason == Some(o.resultReason);
    match o.variant {
      case Move(_, c) => NormalCoastIsKept(c);
      case RetreatMove(_, c) => NormalCoastIsKept(c);
      case _ =>
    }
    RebuiltFrom(d, o);
  }

  /** A record carrying an order's fields and its variant's texts is translated into that order. */
  lemma RebuiltFrom(d: D.OrderDto, o: UnitOrder)
    requires d.player == Some(o.player) && d.unitType == Some(o.unitType) && d.unit == Some(o.unit)
      && d.unitCoast == o.unitCoast && NormaliseCoast(o.unitCoast) == o.unitCoast
      && d.result == Some(o.result) && d.resultReason == Some(o.resultReason)
    requires d.moveType == MoveTypeOf(o.variant)
    requires BuildModelOrder(d).Success? ==> BuildModelOrder(d).value.variant == o.variant
    ensures BuildModelOrder(d) == Success(o)
  {
  }

  /** Normalising a normal coast changes nothing. */
  lemma NormalCoastIsKept(coast: Option<string>)
    requires NormalCoast(coast)
    ensures NormaliseCoast(coast) == coast
  {
    if coast != None {
      NormalisedIsKept(coast.value);
    }
  }

  /** `orders.Select(build)` as enumerated by `AddRange`: the first record that fails stops it. */
  function BuildAll(dtos: seq<D.OrderDto>, build: D.OrderDto -> Result<UnitOrder, TranslateError>): (r: Result<seq<UnitOrder>, TranslateError>)
    ensures r.Success? <==> forall k :: 0 <= k < |dtos| ==> build(dtos[k]).Success?
    ensures r.Success? ==> |r.value| == |dtos| && forall k :: 0 <= k < |dtos| ==> r.value[k] == build(dtos[k]).value
    ensures r.Failure? ==> exists k :: (0 <= k < |dtos| && build(dtos[k]) == Failure(r.error)
      && forall j :: 0 <= j < k ==> build(dtos[j]).Success?)
  {
    if |dtos| == 0 then Success([])
    else
      var first :- build(dtos[0]);
      var rest := BuildAll(dtos[1..], build);
      if rest.Failure? then
        ghost var k :| (0 <= k < |dtos| - 1 && build(dtos[1..][k]) == Failure(rest.error)
          && forall j :: 0 <= j < k ==> build(dtos[1..][j]).Success?);
        assert build(dtos[k + 1]) == Failure(rest.error);
        Failure(rest.error)
      else Success([first] + rest.value)
  }

  /** `orders.Select(BuildModelOrder)` as enumerated by `AddRange`: the first record that fails stops it. */
  function BuildOrders(dtos: seq<D.OrderDto>): (r: Result<seq<UnitOrder>, TranslateError>)
    ensures r.Success? <==> forall k :: 0 <= k < |dtos| ==> BuildModelOrder(dtos[k]).Success?
    ensures r.Success? ==> |r.value| == |dtos| && forall k :: 0 <= k < |dtos| ==> r.value[k] == BuildModelOrder(dtos[k]).value
    ensures r.Failure? ==> exists k :: (0 <= k < |dtos| && BuildModelOrder(dtos[k]) == Failure(r.error)
      && forall j :: 0 <= j < k ==> BuildModelOrder(dtos[j]).Success?)
  {
    BuildAll(dtos, BuildModelOrder)
  }

  /**
   * `BuildMoveSet`: the year, then the season index, are read from the
   * blob's path, then one model order per record in record order; the
   * set is unsaved, has no previous set, is last seen `now`, and carries
   * the turn state and the two order-set hashes.
   */
  function BuildMoveSet(blob: Extractor.GamestateBlob, dtos: seq<D.OrderDto>, now: Time, ops: OrderSetOps): (r: Result<MoveSet, TranslateError>)
    ensures YearSeasons.Year(blob.path).Failure? ==> r == Failure(BadTurnPath(YearSeasons.Year(blob.path).error))
    ensures YearSeasons.Year(blob.path).Success? && YearSeasons.SeasonIndex(blob.path).Failure? ==>
      r == Failure(BadTurnPath(YearSeasons.SeasonIndex(blob.path).error))
    ensures r.Success? <==> YearSeasons.Year(blob.path).Success? && YearSeasons.SeasonIndex(blob.path).Success? && BuildOrders(dtos).Success?
    ensures r.Success? ==> (r.value.year == YearSeasons.Year(blob.path).value && r.value.seasonIndex == YearSeasons.SeasonIndex(blob.path).value
      && r.value.seasonName == YearSeasons.Season(blob.path) && r.value.state == blob.turnState)
    ensures r.Success? ==> |r.value.orders| == |dtos| && forall k :: 0 <= k < |dtos| ==> r.value.orders[k] == BuildModelOrder(dtos[k]).value
    ensures r.Success? ==> r.value.id == EmptyId && r.value.previous == None && r.value.firstSeen == None && r.value.lastSeen == Some(now)
    ensures r.Success? ==> r.value.preRetreatHash == ops.setHash(ops.noRetreats(r.value.orders)) && r.value.fullHash == ops.setHash(r.value.orders)
  {
    var year :- match YearSeasons.Year(blob.path)
      case Failure(e) => Failure(BadTurnPath(e))
      case Success(y) => Success(y);
    var index :- match YearSeasons.SeasonIndex(blob.path)
      case Failure(e) => Failure(BadTurnPath(e))
      case Success(i) => Success(i);
    var orders :- BuildOrders(dtos);
    Success(MoveSet(EmptyId, year, YearSeasons.Season(blob.path), index, None, orders, blob.turnState,
                    None, Some(now), ops.setHash(ops.noRetreats(orders)), ops.setHash(orders)))
  }

  /**
   * `TranslateAndPersistTurn` as a state change of the store: a blank URL
   * is rejected, then the move-set is built and upserted.
   */
  function Translate(games: seq<Game>, nextId: Id, ops: OrderSetOps, gameUrl: string, blob: Extractor.GamestateBlob,
                     dtos: seq<D.OrderDto>, previousTurnId: Option<Id>, now: Time): (r: DataManager.Step<Result<Id, TranslateError>>)
    ensures IsBlank(gameUrl) ==> r == DataManager.Step(Failure(BlankGameUrl), games, nextId)
    ensures r.result.Failure? ==> r.games == games && r.nextId == nextId
    ensures r.result.Success? ==> !IsBlank(gameUrl) && BuildMoveSet(blob, dtos, now, ops).Success?
    ensures |r.games| == |games| && (r.nextId == nextId || r.nextId == nextId + 1)
    ensures forall i :: 0 <= i < |games| ==> r.games[i].(moveSets := games[i].moveSets) == games[i]
  {
    if IsBlank(gameUrl) then DataManager.Step(Failure(BlankGameUrl), games, nextId)
    else match BuildMoveSet(blob, dtos, now, ops)
      case Failure(e) => DataManager.Step(Failure(e), games, nextId)
      case Success(moveSet) =>
        var s := DataManager.Upsert(games, nextId, ops, DataManager.KeyValues(gameUrl), moveSet, previousTurnId);
        DataManager.Step(if s.result.Success? then Success(s.result.value) else Failure(Store(s.result.error)), s.games, s.nextId)
  }

  /**
   * The turn is rejected, changing nothing, for a blank URL or a move-set
   * that cannot be built; otherwise the upsert decides, and the id returned
   * is exactly the upsert's.
   */
  lemma TranslateOutcomes(games: seq<Game>, nextId: Id, ops: OrderSetOps, gameUrl: string, blob: Extractor.GamestateBlob,
                          dtos: seq<D.OrderDto>, previousTurnId: Option<Id>, now: Time)
    ensures var t := Translate(games, nextId, ops, gameUrl, blob, dtos, previousTurnId, now);
      && (IsBlank(gameUrl) ==> t == DataManager.Step(Failure(BlankGameUrl), games, nextId))
      && (!IsBlank(gameUrl) && BuildMoveSet(blob, dtos, now, ops).Failure? ==>
            t == DataManager.Step(Failure(BuildMoveSet(blob, dtos, now, ops).error), games, nextId))
      && (!IsBlank(gameUrl) && BuildMoveSet(blob, dtos, now, ops).Success? ==>
            var s := DataManager.Upsert(games, nextId, ops, DataManager.KeyValues(gameUrl), BuildMoveSet(blob, dtos, now, ops).value, previousTurnId);
            && t.games == s.games && t.nextId == s.nextId
            && (t.result.Success? <==> s.result.Success?)
            && (t.result.Success? ==> t.result.value == s.result.value))
  {
  }

  /** A translated turn keeps the store well numbered. */
  lemma TranslateKeepsNumbering(games: seq<Game>, nextId: Id, ops: OrderSetOps, gameUrl: string, blob: Extractor.GamestateBlob,
                                dtos: seq<D.OrderDto>, previousTurnId: Option<Id>, now: Time)
    requires DataManager.WellNumbered(games, nextId)
    ensures var t := Translate(games, nextId, ops, gameUrl, blob, dtos, previousTurnId, now);
      DataManager.WellNumbered(t.games, t.nextId)
  {
    if !IsBlank(gameUrl) && BuildMoveSet(blob, dtos, now, ops).Success? {
      DataManager.UpsertKeepsNumbering(games, nextId, ops, DataManager.KeyValues(gameUrl), BuildMoveSet(blob, dtos, now, ops).value, previousTurnId);
    }
  }

  /** `DtoTranslator`, persisting through the data manager it was built with. */
  class DtoTranslator {
    const dataManager: DataManager.GameStore

    constructor(dataManager: DataManager.GameStore)
      ensures this.dataManager == dataManager
    {
      this.dataManager := dataManager;
    }

    /** `TranslateAndPersistTurn`; `now` is the clock reading taken for `LastSeen`. */
    method TranslateAndPersistTurn(gameUrl: string, blob: Extractor.GamestateBlob, orders: seq<D.OrderDto>,
                                   previousTurnId: Option<Id>, now: Time) returns (r: Result<Id, TranslateError>)
      requires dataManager.Valid()
      modifies dataManager
      ensures dataManager.Valid()
      ensures DataManager.Step(r, dataManager.games, dataManager.nextId)
        == Translate(old(dataManager.games), old(dataManager.nextId), dataManager.ops, gameUrl, blob, orders, previousTurnId, now)
    {
      if IsBlank(gameUrl) {
        return Failure(BlankGameUrl);
      }
      var moveSet := BuildMoveSet(blob, orders, now, dataManager.ops);
      if moveSet.Failure? {
        return Failure(moveSet.error);
      }
      var resultingId := dataManager.UpsertMoveSet(gameUrl, moveSet.value, previousTurnId);
      if resultingId.Failure? {
        return Failure(Store(resultingId.error));
      }
      return Success(resultingId.value);
    }
  }
}
