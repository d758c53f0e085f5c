/**
 * GameReader.BlobDeserializer.cs: the unit line and the order line of a turn
 * page become one flat list of order DTOs.
 *
 * JSON tokenising is not modelled. Each payload goes to a parser passed in
 * as a parameter. The parser yields an already-parsed document, JSON `null`,
 * or a syntax error. JSON objects arrive as lists of member name / value
 * pairs in document order.
 */
module Decoder {
  import opened Wrappers
  import Text

  /**
   * An `int` value of `MoveType` that names no member. The enum converter
   * of System.Text.Json accepts integer values as well as names.
   */
  type UnnamedValue = v: int | (-0x8000_0000 <= v < 0) || (8 < v < 0x8000_0000) witness -1

  /** `MoveType`, in declaration order (Unknown is 0, the default of a missing "type"). */
  datatype MoveType =
    | Unknown | Build | Disband | Move | Hold | Support | Convoy | RetreatMove | RetreatDisband
    | Unnamed(value: UnnamedValue)

  /** `UnitDto`: a unit's type and coast. */
  datatype UnitDto = UnitDto(unitType: Option<string>, coast: Option<string>)

  /** `UnitOrderDto`: one order, as read from the page and then completed. */
  datatype OrderDto = OrderDto(
    player: Option<string>,
    unitType: Option<string>,
    unit: Option<string>,
    unitCoast: Option<string>,
    moveType: MoveType,
    to: Option<string>,
    toCoast: Option<string>,
    from: Option<string>,
    result: Option<string>,
    resultReason: Option<string>,
    retreat: Option<OrderDto>)

  /** What a payload parser yields: a syntax error, the JSON literal `null`, or a document. */
  datatype Parsed<T> = Malformed | JsonNullDocument | Document(document: T)

  /**
   * A member of a unit object, as a `JsonElement`. `JsonOther` carries the
   * text `ToString()` gives for it: the raw JSON of a number, object or
   * array, "True" or "False".
   */
  datatype JsonElement = JsonString(text: string) | JsonNull | JsonOther(text: string)

  /** `JsonElement.ToString()`: a string's value, "" for `null`. */
  function ElementText(e: JsonElement): string {
    match e
    case JsonString(t) => t
    case JsonNull => ""
    case JsonOther(t) => t
  }

  /** The first JSON token of a unit descriptor, with what follows it. */
  datatype UnitToken =
    | UnitString(text: string)
    | UnitObject(properties: map<string, JsonElement>)
    | UnitNullToken
    | UnitOtherToken

  /** The exceptions decoding can raise, one per throwing site. */
  datatype DecodeError =
    | NoOpeningBrace        // a line without '{': the range starts at -1
    | MalformedJson         // JsonException
    | UnsupportedUnitToken  // NotImplementedException of `UnitDtoConverter.Read`
    | MissingUnitProperty   // KeyNotFoundException of `GetProperty`
    | NullUnitCountry       // NullReferenceException of `SelectMany` enumerating a null unit map
    | DuplicateUnit         // ArgumentException of `ToDictionary`
    | NullOrder             // NullReferenceException in `UnitOrderDtoListConverter.Read`
    | NullOrderCountry      // ArgumentNullException of `Select` over a null order list
    | NullUnitName          // ArgumentNullException of the unit dictionary's indexer
    | UnitNotFound          // KeyNotFoundException of the unit dictionary's indexer

  /**
   * `line[line.IndexOf('{')..^1]`: from the first '{' up to, not including,
   * the last character. A line without '{' makes the range throw.
   */
  function Payload(line: string): (r: Option<string>)
    ensures r == None <==> '{' !in line
    ensures r != None ==> |r.value| < |line| && line[|line| - 1 - |r.value|] == '{'
    ensures r != None ==> '{' !in line[..|line| - 1 - |r.value|]
    ensures r != None ==> r.value == line[|line| - 1 - |r.value|..|line| - 1]
  {
    match Text.IndexOf(line, '{')
    case None => None
    case Some(i) => Some(line[i..|line| - 1])
  }

  // ---------------------------------------------------------------- units

  /**
   * `UnitDtoConverter.Read`. A JSON `null` never reaches the converter: the
   * serializer stores a null descriptor instead.
   */
  function ReadUnitDto(t: UnitToken): (r: Result<Option<UnitDto>, DecodeError>)
    ensures r.Success? && r.value != None ==> r.value.value.unitType != None
    ensures t.UnitString? <==> r.Success? && r.value != None && r.value.value.coast == None
    ensures t.UnitString? ==> r.value.value.unitType == Some(t.text)
    ensures t.UnitObject? ==> (r.Success? <==> "type" in t.properties && "coast" in t.properties)
    ensures t.UnitObject? && r.Success? ==>
      r.value == Some(UnitDto(Some(ElementText(t.properties["type"])), Some(ElementText(t.properties["coast"]))))
    ensures r == Success(None) <==> t.UnitNullToken?
    ensures t.UnitOtherToken? ==> r == Failure(UnsupportedUnitToken)
  {
    match t
    case UnitString(s) => Success(Some(UnitDto(Some(s), None)))
    case UnitObject(props) =>
      if "type" !in props || "coast" !in props then Failure(MissingUnitProperty)
      else Success(Some(UnitDto(Some(ElementText(props["type"])), Some(ElementText(props["coast"])))))
    case UnitNullToken => Success(None)
    case UnitOtherToken => Failure(UnsupportedUnitToken)
  }

  /** The parsed unit line: country, then that country's unit labels and descriptors (or `null`). */
  type UnitsDocument = seq<(string, Option<seq<(string, UnitToken)>>)>

  /** One country's descriptors, converted in document order; the first failure is raised. */
  function ConvertUnitEntries(entries: seq<(string, UnitToken)>): (r: Result<seq<(string, Option<UnitDto>)>, DecodeError>)
    ensures r.Success? <==> forall i :: 0 <= i < |entries| ==> ReadUnitDto(entries[i].1).Success?
    ensures r.Success? ==> |r.value| == |entries|
    ensures r.Success? ==> forall i :: 0 <= i < |entries| ==> r.value[i] == (entries[i].0, ReadUnitDto(entries[i].1).value)
  {
    if |entries| == 0 then Success([])
    else
      var head :- ReadUnitDto(entries[0].1);
      var tail :- ConvertUnitEntries(entries[1..]);
      Success([(entries[0].0, head)] + tail)
  }

  /** Deserialising the unit line: every country's descriptors converted; a null country stays null. */
  function ConvertUnits(doc: UnitsDocument): (r: Result<seq<(string, Option<seq<(string, Option<UnitDto>)>>)>, DecodeError>)
    ensures r.Success? ==> |r.value| == |doc|
    ensures r.Success? ==> forall i :: 0 <= i < |doc| ==> r.value[i].0 == doc[i].0 && (r.value[i].1 == None <==> doc[i].1 == None)
    ensures r.Success? <==> forall i :: 0 <= i < |doc| && doc[i].1 != None ==> ConvertUnitEntries(doc[i].1.value).Success?
    ensures r.Success? ==> forall i :: 0 <= i < |doc| && doc[i].1 != None ==>
      r.value[i].1 == Some(ConvertUnitEntries(doc[i].1.value).value)
  {
    if |doc| == 0 then Success([])
    else
      assert forall i :: 1 <= i < |doc| ==> doc[i] == doc[1..][i - 1];
      var head :- ConvertUnitCountry(doc[0].1);
      var tail :- ConvertUnits(doc[1..]);
      Success([(doc[0].0, head)] + tail)
  }

  /** One country of the unit line: null stays null, otherwise its descriptors are converted. */
  function ConvertUnitCountry(country: Option<seq<(string, UnitToken)>>): (r: Result<Option<seq<(string, Option<UnitDto>)>>, DecodeError>)
    ensures r.Success? <==> country == None || ConvertUnitEntries(country.value).Success?
    ensures r.Success? ==> (r.value == None <==> country == None)
    ensures r.Success? && country != None ==> r.value == Some(ConvertUnitEntries(country.value).value)
  {
    match country
    case None => Success(None)
    case Some(entries) => var c :- ConvertUnitEntries(entries); Success(Some(c))
  }

  /** The labels of a list of entries. */
  function Labels<T>(entries: seq<(string, T)>): set<string> {
    set i | 0 <= i < |entries| :: entries[i].0
  }

  /** No label occurs twice. */
  predicate DistinctLabels<T>(entries: seq<(string, T)>) {
    forall i, j :: 0 <= i < j < |entries| ==> entries[i].0 != entries[j].0
  }

  /**
   * `ToDictionary`, continuing from `acc`: entries are added in order, and
   * a label already present raises.
   */
  function AddAll(acc: map<string, Option<UnitDto>>, entries: seq<(string, Option<UnitDto>)>): (r: Result<map<string, Option<UnitDto>>, DecodeError>)
    ensures r.Success? <==> DistinctLabels(entries) && forall i :: 0 <= i < |entries| ==> entries[i].0 !in acc
    ensures r.Failure? ==> r.error == DuplicateUnit
    ensures r.Success? ==> r.value.Keys == acc.Keys + Labels(entries)
    ensures r.Success? ==> forall k :: k in acc ==> r.value[k] == acc[k]
    ensures r.Success? ==> forall i :: 0 <= i < |entries| ==> r.value[entries[i].0] == entries[i].1
    decreases |entries|
  {
    if |entries| == 0 then Success(acc)
    else if entries[0].0 in acc then Failure(DuplicateUnit)
    else
      var r := AddAll(acc[entries[0].0 := entries[0].1], entries[1..]);
      assert Labels(entries) == {entries[0].0} + Labels(entries[1..]) by {
        forall l | l in Labels(entries) ensures l in {entries[0].0} + Labels(entries[1..]) {
          var i :| 0 <= i < |entries| && entries[i].0 == l;
          if i > 0 { assert entries[1..][i - 1].0 == l; }
        }
      }
      r
  }

  /** The descriptors of all countries, in order; a null country contributes nothing. */
  function UnitEntries(countries: seq<(string, Option<seq<(string, Option<UnitDto>)>>)>): seq<(string, Option<UnitDto>)> {
    if |countries| == 0 then []
    else countries[0].1.GetOr([]) + UnitEntries(countries[1..])
  }

  /**
   * `SelectMany(kvp => kvp.Value).ToDictionary()`, continuing from `acc`:
   * countries are enumerated in order, a null country raises when it is
   * reached, and a label seen before raises.
   */
  function FlattenUnits(countries: seq<(string, Option<seq<(string, Option<UnitDto>)>>)>, acc: map<string, Option<UnitDto>>)
    : (r: Result<map<string, Option<UnitDto>>, DecodeError>)
    ensures (exists i :: 0 <= i < |countries| && countries[i].1 == None) ==> r.Failure?
  {
    if |countries| == 0 then Success(acc)
    else match countries[0].1
      case None => Failure(NullUnitCountry)
      case Some(entries) =>
        match AddAll(acc, entries)
        case Failure(e) => Failure(e)
        case Success(next) =>
          var r := FlattenUnits(countries[1..], next);
          assert forall i :: 1 <= i < |countries| ==> countries[i] == countries[1..][i - 1];
          r
  }

  /** Adding a concatenation is adding its first part, then its second. */
  lemma {:induction false} AddAllAppend(acc: map<string, Option<UnitDto>>, a: seq<(string, Option<UnitDto>)>, b: seq<(string, Option<UnitDto>)>)
    ensures AddAll(acc, a + b) == match AddAll(acc, a) case Failure(e) => Failure(e) case Success(m) => AddAll(m, b)
    decreases |a|
  {
    if |a| == 0 {
      assert a + b == b;
    } else {
      assert (a + b)[0] == a[0];
      assert (a + b)[1..] == a[1..] + b;
      if a[0].0 !in acc {
        var next := acc[a[0].0 := a[0].1];
        AddAllAppend(next, a[1..], b);
        assert AddAll(acc, a + b) == AddAll(next, a[1..] + b);
        assert AddAll(acc, a) == AddAll(next, a[1..]);
      }
    }
  }

  /**
   * With no null country, flattening is one `ToDictionary` over all the
   * descriptors in order: it succeeds exactly when no label repeats, and the
   * map then holds every descriptor under its label.
   */
  lemma {:induction false} FlattenIsToDictionary(countries: seq<(string, Option<seq<(string, Option<UnitDto>)>>)>, acc: map<string, Option<UnitDto>>)
    requires forall i :: 0 <= i < |countries| ==> countries[i].1 != None
    ensures FlattenUnits(countries, acc) == AddAll(acc, UnitEntries(countries))
    decreases |countries|
  {
    if |countries| > 0 {
      var entries := countries[0].1.value;
      AddAllAppend(acc, entries, UnitEntries(countries[1..]));
      match AddAll(acc, entries)
      case Failure(_) =>
      case Success(next) => FlattenIsToDictionary(countries[1..], next);
    }
  }

  // --------------------------------------------------------------- orders

  /** A retreat's move type: Move becomes RetreatMove, Disband becomes RetreatDisband. */
  function RemapRetreat(t: MoveType): (r: MoveType)
    ensures r != Move && r != Disband
    ensures r == t || (t == Move && r == RetreatMove) || (t == Disband && r == RetreatDisband)
  {
    if t == Move then RetreatMove
    else if t == Disband then RetreatDisband
    else t
  }

  /** The record a nested retreat becomes: move type remapped, unit set to the order's key. */
  function RetreatRecord(key: string, retreat: OrderDto): OrderDto {
    retreat.(moveType := RemapRetreat(retreat.moveType), unit := Some(key))
  }

  /**
   * What one dictionary entry adds to the list: the order with `Unit` set to
   * its key, then its retreat if it has one. The order's own `Retreat` is
   * the same object as the record added after it.
   */
  function Piece(key: string, order: OrderDto): seq<OrderDto> {
    match order.retreat
    case None => [order.(unit := Some(key))]
    case Some(retreat) =>
      var record := RetreatRecord(key, retreat);
      [order.(unit := Some(key), retreat := Some(record)), record]
  }

  /** The number of non-null entries carrying a retreat. */
  function RetreatCount(entries: seq<(string, Option<OrderDto>)>): nat {
    if |entries| == 0 then 0
    else
      var last := entries[|entries| - 1].1;
      RetreatCount(entries[..|entries| - 1]) + (if last != None && last.value.retreat != None then 1 else 0)
  }

  /**
   * What `UnitOrderDtoListConverter.Read` computes for one country's
   * dictionary: the pieces of the entries in order. A null entry raises.
   */
  function ExpandEntries(entries: seq<(string, Option<OrderDto>)>): (r: Result<seq<OrderDto>, DecodeError>)
    ensures r.Failure? <==> exists i :: 0 <= i < |entries| && entries[i].1 == None
    ensures r.Failure? ==> r.error == NullOrder
    ensures r.Success? ==> |r.value| == |entries| + RetreatCount(entries)
  {
    if |entries| == 0 then Success([])
    else
      var init := entries[..|entries| - 1];
      var last := entries[|entries| - 1];
      assert forall i :: 0 <= i < |init| ==> init[i] == entries[i];
      match ExpandEntries(init)
      case Failure(e) => Failure(e)
      case Success(prefix) =>
        match last.1
        case None => Failure(NullOrder)
        case Some(order) => Success(prefix + Piece(last.0, order))
  }

  /**
   * `UnitOrderDtoListConverter.Read` over the deserialised dictionary
   * (`entries`, in enumeration order): the loop that builds `orderList`.
   */
  method ReadOrderList(entries: seq<(string, Option<OrderDto>)>) returns (r: Result<seq<OrderDto>, DecodeError>)
    ensures r == ExpandEntries(entries)
  {
    var orderList: seq<OrderDto> := [];
    for i := 0 to |entries|
      invariant ExpandEntries(entries[..i]) == Success(orderList)
    {
      assert entries[..i + 1][..i] == entries[..i];
      match entries[i].1
      case None =>
        ExpandFailurePersists(entries, i + 1);
        return Failure(NullOrder);
      case Some(order) =>
        ghost var before := orderList;
        orderList := orderList + [order.(unit := Some(entries[i].0))];
        if order.retreat != None {
          var record := RetreatRecord(entries[i].0, order.retreat.value);
          orderList := orderList[|orderList| - 1 := order.(unit := Some(entries[i].0), retreat := Some(record))];
          orderList := orderList + [record];
        }
        assert orderList == before + Piece(entries[i].0, order);
    }
    assert entries[..|entries|] == entries;
    return Success(orderList);
  }

  /** Once a prefix fails, every longer prefix fails the same way. */
  lemma {:induction false} ExpandFailurePersists(entries: seq<(string, Option<OrderDto>)>, j: nat)
    requires 0 < j <= |entries| && entries[j - 1].1 == None
    ensures ExpandEntries(entries) == Failure(NullOrder)
  {
    assert entries[..j][j - 1].1 == None;
  }

  /** The expansion of a prefix is a prefix of the expansion. */
  lemma {:induction false} ExpandPrefix(entries: seq<(string, Option<OrderDto>)>, j: nat)
    requires j <= |entries| && ExpandEntries(entries).Success?
    ensures ExpandEntries(entries[..j]).Success?
    ensures ExpandEntries(entries[..j]).value <= ExpandEntries(entries).value
    decreases |entries| - j
  {
    if j < |entries| {
      var next := entries[..j + 1];
      assert next[..j] == entries[..j];
      assert forall i :: 0 <= i < |next| ==> next[i] == entries[i];
      ExpandPrefix(entries, j + 1);
    } else {
      assert entries[..j] == entries;
    }
  }

  /**
   * Each order stands at the position after everything its predecessors
   * produced: the order itself, with its key as `Unit` and every other field
   * kept, except that its `Retreat` is the record that comes right after it,
   * remapped and with the same key.
   */
  lemma ExpandPlacesRetreatAfterOrder(entries: seq<(string, Option<OrderDto>)>, i: nat)
    requires i < |entries| && ExpandEntries(entries).Success? && entries[i].1 != None
    ensures ExpandEntries(entries[..i]).Success?
    ensures var r := ExpandEntries(entries).value;
      var p := |ExpandEntries(entries[..i]).value|;
      var o := entries[i].1.value;
      && p < |r|
      && (o.retreat == None ==> r[p] == o.(unit := Some(entries[i].0)))
      && (o.retreat != None ==>
            && p + 1 < |r|
            && r[p + 1] == RetreatRecord(entries[i].0, o.retreat.value)
            && r[p] == o.(unit := Some(entries[i].0), retreat := Some(r[p + 1])))
  {
    ExpandPrefix(entries, i + 1);
    var next := entries[..i + 1];
    assert next[..i] == entries[..i];
  }

  /** Every record's `Unit` is the key of an entry. */
  lemma {:induction false} ExpandUnitsAreKeys(entries: seq<(string, Option<OrderDto>)>)
    requires ExpandEntries(entries).Success?
    ensures forall k :: 0 <= k < |ExpandEntries(entries).value| ==>
      exists i :: 0 <= i < |entries| && ExpandEntries(entries).value[k].unit == Some(entries[i].0)
  {
    if |entries| > 0 {
      var init := entries[..|entries| - 1];
      ExpandUnitsAreKeys(init);
      var r := ExpandEntries(entries).value;
      var prefix := ExpandEntries(init).value;
      forall k | 0 <= k < |r|
        ensures exists i :: 0 <= i < |entries| && r[k].unit == Some(entries[i].0)
      {
        if k < |prefix| {
          var i :| 0 <= i < |init| && prefix[k].unit == Some(init[i].0);
          assert entries[i] == init[i];
        } else {
          assert r[k].unit == Some(entries[|entries| - 1].0);
        }
      }
    }
  }

  /** The parsed order line: country, then that country's order dictionary (or `null`). */
  type OrdersDocument = seq<(string, Option<seq<(string, Option<OrderDto>)>>)>

  /** Deserialising the order line: each non-null country through the list converter, in order. */
  function ConvertOrders(doc: OrdersDocument): (r: Result<seq<(string, Option<seq<OrderDto>>)>, DecodeError>)
    ensures r.Success? ==> |r.value| == |doc|
    ensures r.Success? ==> forall i :: 0 <= i < |doc| ==> r.value[i].0 == doc[i].0
    ensures r.Success? ==> forall i :: 0 <= i < |doc| ==> (doc[i].1 == None <==> r.value[i].1 == None)
    ensures r.Success? ==> forall i :: 0 <= i < |doc| && doc[i].1 != None ==>
      ExpandEntries(doc[i].1.value).Success? && r.value[i].1 == Some(ExpandEntries(doc[i].1.value).value)
    ensures r.Success? <==> forall i :: 0 <= i < |doc| && doc[i].1 != None ==> ExpandEntries(doc[i].1.value).Success?
  {
    if |doc| == 0 then Success([])
    else
      assert forall i :: 1 <= i < |doc| ==> doc[i] == doc[1..][i - 1];
      var head :- ConvertOrderCountry(doc[0].1);
      var tail :- ConvertOrders(doc[1..]);
      Success([(doc[0].0, head)] + tail)
  }

  /** One country of the order line: null stays null, otherwise its dictionary goes through the list converter. */
  function ConvertOrderCountry(country: Option<seq<(string, Option<OrderDto>)>>): (r: Result<Option<seq<OrderDto>>, DecodeError>)
    ensures r.Success? <==> country == None || ExpandEntries(country.value).Success?
    ensures r.Success? ==> (r.value == None <==> country == None)
    ensures r.Success? && country != None ==> r.value == Some(ExpandEntries(country.value).value)
  {
    match country
    case None => Success(None)
    case Some(entries) => var list :- ExpandEntries(entries); Success(Some(list))
  }

  /**
   * The lambda of `GetOrderDtos`: `Player` := the country; unless the order
   * is a Build, the unit is looked up (when there is a unit map) and fills
   * only a null `UnitType` / `UnitCoast`.
   */
  function BackfillOrder(order: OrderDto, player: string, units: Option<map<string, Option<UnitDto>>>): (r: Result<OrderDto, DecodeError>)
    ensures r.Failure? <==> order.moveType != Build && units != None && (order.unit == None || order.unit.value !in units.value)
    ensures order.moveType == Build || units == None ==> r == Success(order.(player := Some(player)))
    ensures r.Success? ==> r.value.(unitType := order.unitType, unitCoast := order.unitCoast) == order.(player := Some(player))
    ensures r.Success? && order.unitType != None ==> r.value.unitType == order.unitType
    ensures r.Success? && order.unitCoast != None ==> r.value.unitCoast == order.unitCoast
    ensures r.Success? && order.moveType != Build && units != None ==>
      var unit := units.value[order.unit.value];
      (order.unitType == None ==> r.value.unitType == (if unit == None then None else unit.value.unitType))
      && (order.unitCoast == None ==> r.value.unitCoast == (if unit == None then None else unit.value.coast))
  {
    var o := order.(player := Some(player));
    if o.moveType == Build then Success(o)
    else match units
      case None => Success(o)
      case Some(m) =>
        match o.unit
        case None => Failure(NullUnitName)
        case Some(name) =>
          if name !in m then Failure(UnitNotFound)
          else
            var unit := m[name];
            var unitType := if unit == None then None else unit.value.unitType;
            var coast := if unit == None then None else unit.value.coast;
            Success(o.(unitType := o.unitType.OrElse(unitType), unitCoast := o.unitCoast.OrElse(coast)))
  }

  /** One country's orders through the lambda, in order; the first failure is raised. */
  function BackfillCountry(orders: seq<OrderDto>, player: string, units: Option<map<string, Option<UnitDto>>>): (r: Result<seq<OrderDto>, DecodeError>)
    ensures r.Success? <==> forall k :: 0 <= k < |orders| ==> BackfillOrder(orders[k], player, units).Success?
    ensures r.Success? ==> |r.value| == |orders|
    ensures r.Success? ==> forall k :: 0 <= k < |orders| ==> r.value[k] == BackfillOrder(orders[k], player, units).value
  {
    if |orders| == 0 then Success([])
    else
      var head :- BackfillOrder(orders[0], player, units);
      var tail :- BackfillCountry(orders[1..], player, units);
      Success([head] + tail)
  }

  /** The number of orders over all countries. */
  function OrderCount(countries: seq<(string, Option<seq<OrderDto>>)>): nat {
    if |countries| == 0 then 0 else |countries[0].1.GetOr([])| + OrderCount(countries[1..])
  }

  /**
   * `SelectMany` over the countries, then the lambda: a null country raises
   * when it is reached; every order comes out with its country as `Player`.
   */
  function BackfillAll(countries: seq<(string, Option<seq<OrderDto>>)>, units: Option<map<string, Option<UnitDto>>>): (r: Result<seq<OrderDto>, DecodeError>)
    ensures (exists i :: 0 <= i < |countries| && countries[i].1 == None) ==> r.Failure?
    ensures r.Success? ==> |r.value| == OrderCount(countries)
    ensures r.Success? ==> forall k :: 0 <= k < |r.value| ==>
      exists i :: 0 <= i < |countries| && r.value[k].player == Some(countries[i].0)
  {
    if |countries| == 0 then Success([])
    else match countries[0].1
      case None => Failure(NullOrderCountry)
      case Some(orders) =>
        var head :- BackfillCountry(orders, countries[0].0, units);
        var tail :- BackfillAll(countries[1..], units);
        assert forall i :: 1 <= i < |countries| ==> countries[i] == countries[1..][i - 1];
        assert forall k :: 0 <= k < |head| ==> head[k].player == Some(countries[0].0);
        var r := head + tail;
        assert forall k :: |head| <= k < |r| ==> r[k] == tail[k - |head|];
        Success(r)
  }

  /** Every country has an order list, and every order in it back-fills. */
  predicate AllBackfill(countries: seq<(string, Option<seq<OrderDto>>)>, units: Option<map<string, Option<UnitDto>>>) {
    forall i :: 0 <= i < |countries| ==>
      && countries[i].1 != None
      && forall k :: 0 <= k < |countries[i].1.value| ==> BackfillOrder(countries[i].1.value[k], countries[i].0, units).Success?
  }

  /** The flattened list exists iff no country is null and every order back-fills. */
  lemma {:induction false} BackfillAllSucceeds(countries: seq<(string, Option<seq<OrderDto>>)>, units: Option<map<string, Option<UnitDto>>>)
    ensures BackfillAll(countries, units).Success? <==> AllBackfill(countries, units)
  {
    if |countries| > 0 {
      var rest := countries[1..];
      BackfillAllSucceeds(rest, units);
      AllBackfillCons(countries, units);
    }
  }

  /** `AllBackfill` of a non-empty list: its first country, then the rest. */
  lemma AllBackfillCons(countries: seq<(string, Option<seq<OrderDto>>)>, units: Option<map<string, Option<UnitDto>>>)
    requires |countries| > 0
    ensures AllBackfill(countries, units) <==>
      countries[0].1 != None && BackfillCountry(countries[0].1.value, countries[0].0, units).Success?
      && AllBackfill(countries[1..], units)
  {
    assert forall i :: 1 <= i < |countries| ==> countries[i] == countries[1..][i - 1];
  }

  /**
   * The flattened list, position by position: the k-th order of the i-th
   * country, back-filled with that country as `Player`, stands right after
   * the orders of the countries before it.
   */
  lemma BackfillAllAt(countries: seq<(string, Option<seq<OrderDto>>)>, units: Option<map<string, Option<UnitDto>>>, i: nat, k: nat)
    requires BackfillAll(countries, units).Success?
    requires i < |countries| && countries[i].1 != None && k < |countries[i].1.value|
    ensures BackfillOrder(countries[i].1.value[k], countries[i].0, units).Success?
    ensures OrderCount(countries[..i]) + k < |BackfillAll(countries, units).value|
    ensures BackfillAll(countries, units).value[OrderCount(countries[..i]) + k]
      == BackfillOrder(countries[i].1.value[k], countries[i].0, units).value
  {
    var before, from := countries[..i], countries[i..];
    assert countries == before + from;
    BackfillAllAppend(before, from, units);
    BackfillAllSplit(from, units);
    assert from[0] == countries[i];
    var head := BackfillCountry(from[0].1.value, from[0].0, units).value;
    IndexAfterHead(BackfillAll(before, units).value, head + BackfillAll(from[1..], units).value, k);
  }

  /** Flattening a concatenation flattens each part; both parts back-fill when the whole does. */
  lemma {:induction false} BackfillAllAppend(a: seq<(string, Option<seq<OrderDto>>)>, b: seq<(string, Option<seq<OrderDto>>)>, units: Option<map<string, Option<UnitDto>>>)
    requires BackfillAll(a + b, units).Success?
    ensures BackfillAll(a, units).Success? && BackfillAll(b, units).Success?
    ensures BackfillAll(a + b, units).value == BackfillAll(a, units).value + BackfillAll(b, units).value
  {
    if |a| == 0 {
      assert a + b == b;
    } else {
      assert (a + b)[0] == a[0];
      assert (a + b)[1..] == a[1..] + b;
      BackfillAllSplit(a + b, units);
      BackfillAllAppend(a[1..], b, units);
      var head := BackfillCountry(a[0].1.value, a[0].0, units).value;
      AppendAssocOrders(head, BackfillAll(a[1..], units).value, BackfillAll(b, units).value);
    }
  }

  lemma AppendAssocOrders(x: seq<OrderDto>, y: seq<OrderDto>, z: seq<OrderDto>)
    ensures x + (y + z) == (x + y) + z
  {
  }

  lemma IndexAfterHead(head: seq<OrderDto>, tail: seq<OrderDto>, x: nat)
    requires x < |tail|
    ensures |head| + x < |head + tail| && (head + tail)[|head| + x] == tail[x]
  {
  }

  /** A flattened list is the first country's back-filled orders, then the rest's. */
  lemma BackfillAllSplit(countries: seq<(string, Option<seq<OrderDto>>)>, units: Option<map<string, Option<UnitDto>>>)
    requires |countries| > 0 && BackfillAll(countries, units).Success?
    ensures countries[0].1 != None && BackfillCountry(countries[0].1.value, countries[0].0, units).Success?
    ensures BackfillAll(countries[1..], units).Success?
    ensures BackfillAll(countries, units).value
      == BackfillCountry(countries[0].1.value, countries[0].0, units).value + BackfillAll(countries[1..], units).value
  {
  }

  /**
   * `GetOrderDtos`: the unit map (null when the unit line holds `null`),
   * then the order lists (none when the order line holds `null`), then the
   * completed orders, country by country.
   */
  function GetOrderDtos(unitLine: string, orderLine: string,
                        parseUnits: string -> Parsed<UnitsDocument>,
                        parseOrders: string -> Parsed<OrdersDocument>): (r: Result<seq<OrderDto>, DecodeError>)
    ensures '{' !in unitLine ==> r == Failure(NoOpeningBrace)
    ensures '{' in unitLine && parseUnits(Payload(unitLine).value).Malformed? ==> r == Failure(MalformedJson)
  {
    match Payload(unitLine)
    case None => Failure(NoOpeningBrace)
    case Some(unitPayload) =>
      var units :- match parseUnits(unitPayload)
        case Malformed => Failure(MalformedJson)
        case JsonNullDocument => Success(None)
        case Document(doc) =>
          var converted :- ConvertUnits(doc);
          var m :- FlattenUnits(converted, map[]);
          Success(Some(m));
      match Payload(orderLine)
      case None => Failure(NoOpeningBrace)
      case Some(orderPayload) =>
        var countries :- match parseOrders(orderPayload)
          case Malformed => Failure(MalformedJson)
          case JsonNullDocument => Success([])
          case Document(doc) => ConvertOrders(doc);
        BackfillAll(countries, units)
  }

  /** Every order handed on names its unit and its player. */
  lemma GetOrderDtosNamesEveryOrder(unitLine: string, orderLine: string,
                                    parseUnits: string -> Parsed<UnitsDocument>,
                                    parseOrders: string -> Parsed<OrdersDocument>)
    requires GetOrderDtos(unitLine, orderLine, parseUnits, parseOrders).Success?
    ensures var r := GetOrderDtos(unitLine, orderLine, parseUnits, parseOrders).value;
      forall k :: 0 <= k < |r| ==> r[k].unit != None && r[k].player != None
  {
    var unitPayload := Payload(unitLine).value;
    var units := match parseUnits(unitPayload)
      case Document(doc) => Some(FlattenUnits(ConvertUnits(doc).value, map[]).value)
      case _ => None;
    var orderPayload := Payload(orderLine).value;
    var countries := match parseOrders(orderPayload)
      case Document(doc) => ConvertOrders(doc).value
      case _ => [];
    assert GetOrderDtos(unitLine, orderLine, parseUnits, parseOrders) == BackfillAll(countries, units);
    forall i | 0 <= i < |countries| && countries[i].1 != None
      ensures forall k :: 0 <= k < |countries[i].1.value| ==> countries[i].1.value[k].unit != None
    {
      var doc := parseOrders(orderPayload).document;
      ExpandUnitsAreKeys(doc[i].1.value);
    }
    BackfillAllKeepsUnits(countries, units);
  }

  /** The lambda never clears a unit name. */
  lemma {:induction false} BackfillAllKeepsUnits(countries: seq<(string, Option<seq<OrderDto>>)>, units: Option<map<string, Option<UnitDto>>>)
    requires forall i :: 0 <= i < |countries| && countries[i].1 != None ==>
      forall k :: 0 <= k < |countries[i].1.value| ==> countries[i].1.value[k].unit != None
    requires BackfillAll(countries, units).Success?
    ensures forall k :: 0 <= k < |BackfillAll(countries, units).value| ==> BackfillAll(countries, units).value[k].unit != None
  {
    if |countries| > 0 {
      var orders := countries[0].1.value;
      var head := BackfillCountry(orders, countries[0].0, units).value;
      assert forall i :: 1 <= i < |countries| ==> countries[i] == countries[1..][i - 1];
      BackfillAllKeepsUnits(countries[1..], units);
      assert forall k :: 0 <= k < |head| ==> head[k].unit == orders[k].unit;
    }
  }
}
