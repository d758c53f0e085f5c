/**
 * The persisted model of Model/Diplo: unit orders in their nine variants and
 * their text renderings (UnitOrder.cs), move-sets (turns) and games.
 *
 * The variant set is the one the translator builds and the database maps
 * (GameReader.DtoTranslator.cs, Data/AppDbContext.cs): RetreatMove and
 * RetreatDisband replace the single `RetreatOrder` of UnitOrder.cs, and
 * Move/RetreatMove carry a `ToCoast`.
 */
module Diplo {
  import opened Wrappers

  /** Database identifiers of games and move-sets; `EmptyId` is `Guid.Empty`, the id of an unsaved entity. */
  type Id = nat
  const EmptyId: Id := 0

  /** A point in time (`DateTimeOffset`), as an abstract integer clock reading. */
  type Time = int

  /** The variant-specific part of an order. */
  datatype Variant =
    | Hold
    | Move(to: string, toCoast: Option<string>)
    | SupportHold(supporting: string)
    | SupportMove(supportingFrom: string, supportingTo: string)
    | Convoy(convoyFrom: string, convoyTo: string)
    | RetreatMove(to: string, toCoast: Option<string>)
    | RetreatDisband
    | Build
    | Disband

  /** `UnitOrder` with the fields common to every variant. */
  datatype UnitOrder = UnitOrder(
    player: string,
    unitType: string,
    unit: string,
    unitCoast: Option<string>,
    result: string,
    resultReason: string,
    variant: Variant)

  /** The result text that marks an order that went through. */
  const Succeeds: string := "SUCCEEDS"

  /** `UnitDescription`: type and unit, then the coast only when there is one. */
  function UnitDescription(o: UnitOrder): (r: string)
    ensures o.unitCoast == None ==> r == o.unitType + " " + o.unit
    ensures o.unitCoast != None ==> r == o.unitType + " " + o.unit + " " + o.unitCoast.value
  {
    o.unitType + " " + o.unit + (if o.unitCoast != None then " " + o.unitCoast.value else "")
  }

  /** `ResultString`: empty exactly for a succeeding order, otherwise the result and its reason. */
  function ResultString(o: UnitOrder): (r: string)
    ensures r == "" <==> o.result == Succeeds
    ensures o.result != Succeeds ==> r == " -- " + o.result + ", " + o.resultReason
  {
    if o.result != Succeeds then " -- " + o.result + ", " + o.resultReason else ""
  }

  /** The variants whose rendering puts the verb before the unit. */
  predicate VerbFirst(v: Variant) {
    v.Build? || v.Disband? || v.RetreatDisband?
  }

  /**
   * `OrderString`, per variant. The retreat variants have no rendering of
   * their own in UnitOrder.cs: RetreatMove renders as its `RetreatOrder`
   * ("Retreats To"), RetreatDisband as a disband.
   */
  function OrderString(o: UnitOrder): (r: string)
    ensures !VerbFirst(o.variant) ==> UnitDescription(o) <= r
    ensures o.variant.Build? ==> r == "Builds " + UnitDescription(o)
    ensures o.variant.Disband? || o.variant.RetreatDisband? ==> r == "Disbands " + UnitDescription(o)
  {
    var d := UnitDescription(o);
    match o.variant
    case Hold => d + " Holds"
    case Move(to, _) => d + " To " + to
    case SupportHold(supporting) => d + " Supports " + supporting + " Hold"
    case SupportMove(from, to) => d + " Supports " + from + " To " + to
    case Convoy(from, to) => d + " Convoys " + from + " To " + to
    case RetreatMove(to, _) => d + " Retreats To " + to
    case RetreatDisband => "Disbands " + d
    case Build => "Builds " + d
    case Disband => "Disbands " + d
  }

  /** `ToString`: the order text, then the result text. */
  function ToString(o: UnitOrder): (r: string)
    ensures OrderString(o) <= r
    ensures r == OrderString(o) <==> o.result == Succeeds
  {
    OrderString(o) + ResultString(o)
  }

  /** The rendering never shows the player: two orders that differ only in player read the same. */
  lemma RenderingIgnoresPlayer(o: UnitOrder, player: string)
    ensures ToString(o.(player := player)) == ToString(o)
  {
  }

  /** A failed order's text ends with its result and reason. */
  lemma FailedOrderShowsReason(o: UnitOrder)
    requires o.result != Succeeds
    ensures ToString(o) == OrderString(o) + " -- " + o.result + ", " + o.resultReason
  {
  }

  /**
   * `MoveSet`, one scraped turn, with the fields its uses show (MoveSet.cs
   * predates `SeasonName` and the integer hashes). `previous` is the id of
   * the chronologically previous move-set; the times are nullable.
   */
  datatype MoveSet = MoveSet(
    id: Id,
    year: int,
    seasonName: string,
    seasonIndex: int,
    previous: Option<Id>,
    orders: seq<UnitOrder>,
    state: string,
    firstSeen: Option<Time>,
    lastSeen: Option<Time>,
    preRetreatHash: int,
    fullHash: int)

  /** The user owning a game, by id. */
  type UserId = nat

  /** `Game`, with the fields its uses show (Game.cs predates all but Id, Uri and MoveSets). */
  datatype Game = Game(
    id: Id,
    uri: string,
    foreignId: string,
    creationTime: Time,
    owner: Option<UserId>,
    moveSets: seq<MoveSet>)

  /**
   * The members the model uses but that are defined outside it, each an
   * arbitrary function: the order-set hash (`GetOrderSetHash`), the two
   * retreat filters (`NoRetreats`, `OnlyRetreats`) and the
   * `MoveSet.Satisfied` flag.
   */
  datatype OrderSetOps = OrderSetOps(
    setHash: seq<UnitOrder> -> int,
    noRetreats: seq<UnitOrder> -> seq<UnitOrder>,
    onlyRetreats: seq<UnitOrder> -> seq<UnitOrder>,
    satisfied: MoveSet -> bool)
}
