/**
 * The deck handlers: create, list, fetch, update and delete decks of exactly
 * ten cards, each deck visible only to its owner. The deck table (with its
 * deck-card rows folded into the deck's card list) is a map from deck id to
 * deck; the card table is a fixed catalog of card ids.
 */
module DeckController {
  import opened JsValues

  /** A deck row: its owner, its name and its card ids in insertion order. */
  datatype Deck = Deck(userId: int, name: string, cards: seq<int>)

  /** The JSON written to the response. */
  datatype Payload =
    | Failure(error: string)           // { error: ... }
    | OneDeck(id: int, deck: Deck)     // one deck with its cards
    | DeckList(decks: map<int, Deck>)  // the requester's decks
    | Deleted(message: string)         // { message: ... }

  datatype Reply = Reply(status: int, payload: Payload)

  const DeckSize := 10

  const NameRequired := Reply(400, Failure("Name is required"))
  const WrongSize := Reply(400, Failure("A deck must have exactly 10 cards"))
  const UnknownCardsOnCreate := Reply(400, Failure("One or more card IDs are invalid"))
  const UnknownCardsOnUpdate := Reply(400, Failure("Invalid card IDs"))
  const NotFound := Reply(404, Failure("Deck not found"))
  const ServerError := Reply(500, Failure("Internal server error"))

  /** `cards && Array.isArray(cards) && cards.length === 10` */
  predicate TenEntries(cards: Value) {
    Truthy(cards) && cards.Arr? && |cards.items| == DeckSize
  }

  /**
   * The card ids of a request, when every entry is a number; the ORM refuses
   * an id list with any other entry.
   */
  function CardIds(items: seq<Value>): (r: Option<seq<int>>)
    ensures r.Some? <==> forall i :: 0 <= i < |items| ==> items[i].Num?
    ensures r.Some? ==> |r.value| == |items| && forall i :: 0 <= i < |items| ==> r.value[i] == items[i].n
  {
    if items == [] then Some([])
    else if !items[0].Num? then None
    else
      match CardIds(items[1..])
      case None => None
      case Some(rest) => Some([items[0].n] + rest)
  }

  /** The ids of a request's `cards` value, when it is an array of numbers. */
  function RequestedIds(cards: Value): Option<seq<int>> {
    if cards.Arr? then CardIds(cards.items) else None
  }

  /** The card rows `findMany({ where: { id: { in: ids } } })` returns, as their ids. */
  function MatchedCards(ids: seq<int>, catalog: set<int>): set<int> {
    set c | c in ids && c in catalog
  }

  predicate Distinct(ids: seq<int>) {
    forall i, j :: 0 <= i < j < |ids| ==> ids[i] != ids[j]
  }

  predicate AllKnown(ids: seq<int>, catalog: set<int>) {
    forall i :: 0 <= i < |ids| ==> ids[i] in catalog
  }

  /** What every stored deck satisfies: ten distinct cards of the catalog. */
  predicate WellFormed(d: Deck, catalog: set<int>) {
    |d.cards| == DeckSize && Distinct(d.cards) && AllKnown(d.cards, catalog)
  }

  function Elements(s: seq<int>): set<int> {
    set x | x in s
  }

  lemma {:induction false} ElementsCount(s: seq<int>)
    ensures |Elements(s)| <= |s|
    ensures |Elements(s)| == |s| <==> Distinct(s)
  {
    if s != [] {
      var t := s[1..];
      ElementsCount(t);
      assert Elements(s) == {s[0]} + Elements(t);
      if s[0] in t {
        assert Elements(s) == Elements(t);
        var k :| 0 <= k < |t| && t[k] == s[0];
        assert s[0] == s[k + 1];
      } else {
        assert |Elements(s)| == |Elements(t)| + 1;
        if |Elements(s)| == |s| {
          forall i, j | 0 <= i < j < |s| ensures s[i] != s[j] {
            if i > 0 {
              assert s[i] == t[i - 1] && s[j] == t[j - 1];
            } else {
              assert s[j] == t[j - 1] && s[j] in t;
            }
          }
        }
      }
      if Distinct(s) {
        assert Distinct(t) by {
          forall i, j | 0 <= i < j < |t| ensures t[i] != t[j] {
            assert t[i] == s[i + 1] && t[j] == s[j + 1];
          }
        }
        assert s[0] !in t by {
          forall k | 0 <= k < |t| ensures t[k] != s[0] {
            assert t[k] == s[k + 1];
          }
        }
      }
    }
  }

  lemma SubsetCount(a: set<int>, b: set<int>)
    requires a <= b
    ensures |a| <= |b|
    ensures |a| == |b| ==> a == b
  {
    assert b == a + (b - a);
    assert |b| == |a| + |b - a|;
    if |a| == |b| {
      assert |b - a| == 0;
      assert b - a == {};
    }
  }

  /**
   * The card check of create and update accepts a list of ten ids exactly
   * when the ten ids are distinct and all in the catalog: an unknown id and a
   * repeated id both leave fewer than ten matching card rows.
   */
  lemma {:induction false} TenMatchesIffDistinctKnown(ids: seq<int>, catalog: set<int>)
    requires |ids| == DeckSize
    ensures |MatchedCards(ids, catalog)| == DeckSize <==> Distinct(ids) && AllKnown(ids, catalog)
  {
    var m := MatchedCards(ids, catalog);
    ElementsCount(ids);
    SubsetCount(m, Elements(ids));
    if Distinct(ids) && AllKnown(ids, catalog) {
      assert m == Elements(ids);
    }
    if |m| == DeckSize {
      assert m == Elements(ids);
      forall i | 0 <= i < |ids| ensures ids[i] in catalog {
        assert ids[i] in Elements(ids);
      }
    }
  }

  /**
   * The card part of an update is accepted: `cards` is falsy (left alone), or
   * it is ten numeric ids that are distinct and all in the catalog.
   */
  predicate CardsUpdateAccepted(cards: Value, catalog: set<int>) {
    Truthy(cards) ==>
      && TenEntries(cards)
      && RequestedIds(cards).Some?
      && Distinct(RequestedIds(cards).value)
      && AllKnown(RequestedIds(cards).value, catalog)
  }

  /**
   * The name `deck.update` stores for `name ?? undefined`: the current name
   * when the field is null or missing, a string as given, and `s` for the
   * ORM's update-operation object `{ set: s }`. The ORM refuses any other
   * value (None), the empty object `{}` included, since an update-operation
   * object must name exactly one operation.
   */
  function UpdatedName(current: string, name: Value): Option<string> {
    if Nullish(name) then Some(current)
    else if name.Str? then Some(name.s)
    else if name.Obj? && name.fields.Keys == {"set"} && name.fields["set"].Str? then Some(name.fields["set"].s)
    else None
  }

  class DeckStore {
    /** The deck table, keyed by deck id. */
    var decks: map<int, Deck>
    /** The ids of the card table, which these handlers only read. */
    const catalog: set<int>
    /** The id the database assigns to the next deck it inserts. */
    var nextId: int

    ghost predicate Valid()
      reads this
    {
      && (forall id :: id in decks ==> id < nextId)
      && (forall id :: id in decks ==> WellFormed(decks[id], catalog))
    }

    /** Deck `id` exists and belongs to `requester`: `findFirst({ where: { id, userId } })`. */
    predicate Owned(id: int, requester: int)
      reads this
    {
      id in decks && decks[id].userId == requester
    }

    constructor (catalog: set<int>)
      ensures Valid()
      ensures this.catalog == catalog && decks == map[] && nextId == 1
    {
      this.catalog := catalog;
      decks := map[];
      nextId := 1;
    }

    /**
     * POST /api/decks. `outage` means that every database call throws.
     */
    method Create(requester: int, body: Body, outage: bool) returns (r: Reply)
      requires Valid()
      modifies this
      ensures Valid()
      ensures !Truthy(Field(body, "name")) ==> r == NameRequired
      ensures Truthy(Field(body, "name")) && !TenEntries(Field(body, "cards")) ==> r == WrongSize
      ensures (Truthy(Field(body, "name")) && TenEntries(Field(body, "cards")) &&
               (outage || RequestedIds(Field(body, "cards")).None?)) ==> r == ServerError
      ensures Truthy(Field(body, "name")) && TenEntries(Field(body, "cards")) && !outage &&
              RequestedIds(Field(body, "cards")).Some? &&
              !(Distinct(RequestedIds(Field(body, "cards")).value) &&
                AllKnown(RequestedIds(Field(body, "cards")).value, catalog))
              ==> r == UnknownCardsOnCreate
      ensures (Truthy(Field(body, "name")) && !Field(body, "name").Str? && TenEntries(Field(body, "cards")) &&
               !outage && RequestedIds(Field(body, "cards")).Some? &&
               Distinct(RequestedIds(Field(body, "cards")).value) &&
               AllKnown(RequestedIds(Field(body, "cards")).value, catalog)) ==> r == ServerError
      ensures r.status == 201 <==>
              && Truthy(Field(body, "name")) && Field(body, "name").Str?
              && TenEntries(Field(body, "cards")) && !outage
              && RequestedIds(Field(body, "cards")).Some?
              && Distinct(RequestedIds(Field(body, "cards")).value)
              && AllKnown(RequestedIds(Field(body, "cards")).value, catalog)
      ensures r.status == 201 ==>
              && old(nextId) !in old(decks)
              && var d := Deck(requester, Field(body, "name").s, RequestedIds(Field(body, "cards")).value);
                 decks == old(decks)[old(nextId) := d] && r == Reply(201, OneDeck(old(nextId), d))
      ensures r.status == 201 ==> nextId == old(nextId) + 1
      ensures r.status != 201 ==> decks == old(decks) && nextId == old(nextId)
      ensures r.status in {201, 400, 500}
    {
      var name := Field(body, "name");
      var cards := Field(body, "cards");
      if !Truthy(name) {
        return NameRequired;
      }
      if !Truthy(cards) || !cards.Arr? || |cards.items| != DeckSize {
        return WrongSize;
      }
      var ids := RequestedIds(cards);
      if outage || ids.None? {
        return ServerError;
      }
      var existing := MatchedCards(ids.value, catalog);
      TenMatchesIffDistinctKnown(ids.value, catalog);
      if |existing| != DeckSize {
        return UnknownCardsOnCreate;
      }
      if !name.Str? {
        // the ORM refuses a name that is not a string
        return ServerError;
      }
      var d := Deck(requester, name.s, ids.value);
      decks := decks[nextId := d];
      r := Reply(201, OneDeck(nextId, d));
      nextId := nextId + 1;
    }

    /** GET /api/decks/mine */
    method GetMine(requester: int, outage: bool) returns (r: Reply)
      ensures outage ==> r == ServerError
      ensures !outage ==> r.status == 200 && r.payload.DeckList?
      ensures r.payload.DeckList? ==>
              && (forall id :: id in r.payload.decks <==> Owned(id, requester))
              && (forall id :: id in r.payload.decks ==> r.payload.decks[id] == decks[id])
    {
      if outage {
        return ServerError;
      }
      var mine := map id | id in decks && decks[id].userId == requester :: decks[id];
      r := Reply(200, DeckList(mine));
    }

    /** GET /api/decks/:id */
    method GetOne(requester: int, deckId: int, outage: bool) returns (r: Reply)
      ensures outage ==> r == ServerError
      ensures !outage && !Owned(deckId, requester) ==> r == NotFound
      ensures r.status == 200 <==> !outage && Owned(deckId, requester)
      ensures r.status == 200 ==> r.payload == OneDeck(deckId, decks[deckId])
      ensures r.payload.OneDeck? ==> r.payload.deck.userId == requester
    {
      if outage {
        return ServerError;
      }
      if !(deckId in decks && decks[deckId].userId == requester) {
        return NotFound;
      }
      r := Reply(200, OneDeck(deckId, decks[deckId]));
    }

    /** PATCH /api/decks/:id */
    method Update(requester: int, deckId: int, body: Body, outage: bool) returns (r: Reply)
      requires Valid()
      modifies this
      ensures Valid()
      ensures nextId == old(nextId)
      ensures outage ==> r == ServerError
      ensures !outage && !old(Owned(deckId, requester)) ==> r == NotFound
      ensures (!outage && old(Owned(deckId, requester)) && Truthy(Field(body, "cards")) &&
               !TenEntries(Field(body, "cards"))) ==> r == WrongSize
      ensures (!outage && old(Owned(deckId, requester)) && TenEntries(Field(body, "cards")) &&
               RequestedIds(Field(body, "cards")).None?) ==> r == ServerError
      ensures !outage && old(Owned(deckId, requester)) && TenEntries(Field(body, "cards")) &&
              RequestedIds(Field(body, "cards")).Some? &&
              !(Distinct(RequestedIds(Field(body, "cards")).value) &&
                AllKnown(RequestedIds(Field(body, "cards")).value, catalog))
              ==> r == UnknownCardsOnUpdate
      ensures (!outage && old(Owned(deckId, requester)) && CardsUpdateAccepted(Field(body, "cards"), catalog) &&
               UpdatedName(old(decks)[deckId].name, Field(body, "name")).None?) ==> r == ServerError
      ensures r.status == 404 <==> !outage && !old(Owned(deckId, requester))
      ensures r.status == 200 <==>
              && !outage && old(Owned(deckId, requester))
              && CardsUpdateAccepted(Field(body, "cards"), catalog)
              && UpdatedName(old(decks)[deckId].name, Field(body, "name")).Some?
      ensures r.status == 200 ==>
              && deckId in old(decks) && deckId in decks
              && decks == old(decks)[deckId := decks[deckId]]
              && r == Reply(200, OneDeck(deckId, decks[deckId]))
              && decks[deckId].userId == old(decks)[deckId].userId
              && decks[deckId].name == UpdatedName(old(decks)[deckId].name, Field(body, "name")).value
              && (Nullish(Field(body, "name")) ==> decks[deckId].name == old(decks)[deckId].name)
              && (Field(body, "name").Str? ==> decks[deckId].name == Field(body, "name").s)
              && decks[deckId].cards ==
                 (if Truthy(Field(body, "cards")) then RequestedIds(Field(body, "cards")).value
                  else old(decks)[deckId].cards)
      ensures r.status != 200 ==> decks == old(decks)
      ensures r.status in {200, 400, 404, 500}
    {
      var name := Field(body, "name");
      var cards := Field(body, "cards");
      if outage {
        return ServerError;
      }
      if !(deckId in decks && decks[deckId].userId == requester) {
        return NotFound;
      }
      var newCards := decks[deckId].cards;
      if Truthy(cards) {
        if !cards.Arr? || |cards.items| != DeckSize {
          return WrongSize;
        }
        var ids := RequestedIds(cards);
        if ids.None? {
          return ServerError;
        }
        TenMatchesIffDistinctKnown(ids.value, catalog);
        if |MatchedCards(ids.value, catalog)| != DeckSize {
          return UnknownCardsOnUpdate;
        }
        // the old deck-card rows are deleted, then the new ones created
        newCards := ids.value;
      }
      var newName := UpdatedName(decks[deckId].name, name);
      if newName.None? {
        // the ORM refuses the update and the transaction rolls back
        return ServerError;
      }
      var d := Deck(decks[deckId].userId, newName.value, newCards);
      decks := decks[deckId := d];
      r := Reply(200, OneDeck(deckId, d));
    }

    /** DELETE /api/decks/:id */
    method Delete(requester: int, deckId: int, outage: bool) returns (r: Reply)
      requires Valid()
      modifies this
      ensures Valid()
      ensures nextId == old(nextId)
      ensures outage ==> r == ServerError
      ensures !outage && !old(Owned(deckId, requester)) ==> r == NotFound
      ensures r.status == 200 <==> !outage && old(Owned(deckId, requester))
      ensures r.status == 200 ==>
              decks == old(decks) - {deckId} && r.payload == Deleted("Deck deleted successfully")
      ensures r.status != 200 ==> decks == old(decks)
      ensures r.status in {200, 404, 500}
    {
      if outage {
        return ServerError;
      }
      if !(deckId in decks && decks[deckId].userId == requester) {
        return NotFound;
      }
      decks := decks - {deckId};
      r := Reply(200, Deleted("Deck deleted successfully"));
    }
  }
}
