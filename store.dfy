/**
 * The card database both Raspberry Pi scripts share: the `CardIDs` table
 * (card id -> rank, name, last use) and the append-only `UsageLog`, the
 * `Rank` enumeration, and the five bootstrap cards `addDefaultCards` keeps
 * present. The SQLite engine is replaced by a map and a sequence.
 */
module Store {
  import opened Wrappers

  /** A card id as the reader reports it. */
  type CardId = nat

  /** The value of SQLite's `datetime('now')`, in seconds. */
  type Timestamp = int

  // The `Rank` enumeration.
  const Unknown: int := 0
  const User: int := 1
  const Administrator: int := 2
  const Wipe: int := 3
  const Programming: int := 4
  const Delete: int := 5
  const Master: int := 6

  /** One row of `CardIDs`, without its key. */
  datatype CardRecord = CardRecord(rank: int, name: Option<string>, lastUsed: Option<Timestamp>)

  /** One row of `UsageLog`. */
  datatype UsageEntry = UsageEntry(time: Timestamp, cardId: CardId, rank: int)

  type CardTable = map<CardId, CardRecord>

  /** The errors that end a script's main loop. */
  datatype Failure =
    | NotANumber      // `int()` rejected the text after the prefix
    | DuplicateCard   // an INSERT hit the `CardID` primary key
    | LogTimeTaken    // the `UsageLog` primary key `Time` already holds this second
    | IdOutOfRange    // `cardId.to_bytes(4, 'big')` overflowed
    | RankOutOfRange  // `int(cardRank).to_bytes(1, 'big')` overflowed

  /** The rank a lookup resolves to: the stored one, or `Unknown` when there is no row. */
  function RankOf(cards: CardTable, id: CardId): int {
    if id in cards then cards[id].rank else Unknown
  }

  /** The table after `UPDATE CardIDs SET LastUsed = now WHERE CardID IS id`. */
  function Touched(cards: CardTable, id: CardId, now: Timestamp): (r: CardTable)
    ensures r.Keys == cards.Keys
    ensures forall k :: k in cards ==> r[k].rank == cards[k].rank && r[k].name == cards[k].name
    ensures forall k :: k in cards && k != id ==> r[k] == cards[k]
    ensures id in cards ==> r[id].lastUsed == Some(now)
  {
    if id in cards then cards[id := cards[id].(lastUsed := Some(now))] else cards
  }

  /** The `Name` column of the row for `id`: `None` when the row is missing or the column is NULL. */
  function NameOf(cards: CardTable, id: CardId): Option<string> {
    if id in cards then cards[id].name else None
  }

  /** No `UsageLog` row has time `t` yet, so a row with that key may be inserted. */
  predicate TimeFree(usage: seq<UsageEntry>, t: Timestamp) {
    forall i :: 0 <= i < |usage| ==> usage[i].time != t
  }

  /** The five bootstrap cards, in the order `addDefaultCards` checks them. */
  const DefaultCards: seq<(CardId, CardRecord)> := [
    (721416196, CardRecord(Administrator, Some("Stefen Sharkey"), None)),
    (704852996, CardRecord(Wipe, Some("Master Wiper"), None)),
    (711223556, CardRecord(Programming, Some("Master Programming"), None)),
    (709711364, CardRecord(Delete, Some("Master Deletion"), None)),
    (707829764, CardRecord(Master, Some("Master Card"), None))
  ]

  /** The rows of `defs` as a map, an earlier row winning over a later one with the same id. */
  function AsTable(defs: seq<(CardId, CardRecord)>): CardTable
    decreases |defs|
  {
    if defs == [] then map[] else AsTable(defs[1..])[defs[0].0 := defs[0].1]
  }

  /** The five bootstrap cards as a table. */
  function DefaultTable(): (t: CardTable)
    ensures t.Keys == {721416196, 704852996, 711223556, 709711364, 707829764}
    ensures forall i :: 0 <= i < |DefaultCards| ==> t[DefaultCards[i].0] == DefaultCards[i].1
  {
    var d := DefaultCards;
    assert AsTable(d[5..]) == map[];
    assert AsTable(d[4..]) == map[d[4].0 := d[4].1];
    assert AsTable(d[3..]) == AsTable(d[4..])[d[3].0 := d[3].1];
    assert AsTable(d[2..]) == AsTable(d[3..])[d[2].0 := d[2].1];
    assert AsTable(d[1..]) == AsTable(d[2..])[d[1].0 := d[1].1];
    AsTable(d)
  }

  /** One "SELECT, and INSERT when nothing came back" step. */
  function AddIfAbsent(cards: CardTable, def: (CardId, CardRecord)): (r: CardTable)
    ensures r.Keys == cards.Keys + {def.0}
    ensures forall k :: k in cards ==> r[k] == cards[k]
    ensures def.0 !in cards ==> r[def.0] == def.1
  {
    if def.0 in cards then cards else cards[def.0 := def.1]
  }

  /**
   * Insert-if-absent for each row of `defs` in turn. Whatever the order,
   * the outcome is the rows of `defs` overridden by those already present.
   */
  function InsertAbsent(cards: CardTable, defs: seq<(CardId, CardRecord)>): (r: CardTable)
    ensures r == AsTable(defs) + cards
    decreases |defs|
  {
    if defs == [] then
      assert AsTable(defs) + cards == cards;
      cards
    else
      var r := InsertAbsent(AddIfAbsent(cards, defs[0]), defs[1..]);
      assert r == AsTable(defs) + cards by {
        assert r == AsTable(defs[1..]) + AddIfAbsent(cards, defs[0]);
      }
      r
  }

  /** The table after `addDefaultCards`. */
  function WithDefaults(cards: CardTable): (r: CardTable)
    ensures r == DefaultTable() + cards
  {
    InsertAbsent(cards, DefaultCards)
  }

  /** Every bootstrap card is present after `addDefaultCards`, and no other row is added. */
  lemma DefaultsPresent(cards: CardTable)
    ensures WithDefaults(cards).Keys == cards.Keys + DefaultTable().Keys
    ensures forall i :: 0 <= i < |DefaultCards| ==> DefaultCards[i].0 in WithDefaults(cards)
  {
    var d := DefaultTable();
    assert WithDefaults(cards) == d + cards;
    assert (d + cards).Keys == d.Keys + cards.Keys;
  }

  /** `addDefaultCards` never overwrites a row that exists, bootstrap ids included. */
  lemma DefaultsKeepRows(cards: CardTable)
    ensures forall id :: id in cards ==> id in WithDefaults(cards) && WithDefaults(cards)[id] == cards[id]
  {
  }

  /** A second `addDefaultCards` changes nothing. */
  lemma {:induction false} DefaultsIdempotent(cards: CardTable)
    ensures WithDefaults(WithDefaults(cards)) == WithDefaults(cards)
  {
    var d := DefaultTable();
    assert WithDefaults(WithDefaults(cards)) == d + (d + cards);
    assert d + (d + cards) == d + cards;
  }

  /** After a wipe, `addDefaultCards` leaves exactly the five bootstrap cards. */
  lemma WipeThenDefaults()
    ensures WithDefaults(map[]) == DefaultTable()
    ensures |WithDefaults(map[])| == 5
    ensures forall id :: id in WithDefaults(map[]) ==> WithDefaults(map[])[id].rank >= Administrator
  {
    var d := DefaultTable();
    assert d + map[] == d;
    assert |d.Keys| == 5;
    forall id | id in d ensures d[id].rank >= Administrator {
      assert id == DefaultCards[0].0 || id == DefaultCards[1].0 || id == DefaultCards[2].0
          || id == DefaultCards[3].0 || id == DefaultCards[4].0;
    }
  }

  /**
   * The `CardIDs` table and the `UsageLog` behind one SQLite connection.
   * Each method is one SQL statement the scripts issue, or a fixed
   * sequence of them.
   */
  class CardStore {
    var cards: CardTable
    var usage: seq<UsageEntry>

    /** Opens a database that already holds `cards` and `usage`. */
    constructor (cards: CardTable, usage: seq<UsageEntry>)
      ensures this.cards == cards && this.usage == usage
    {
      this.cards := cards;
      this.usage := usage;
    }

    /** `SELECT Rank …` followed, when a row came back, by the `LastUsed` update. */
    method Lookup(id: CardId, now: Timestamp) returns (rank: int)
      modifies this
      ensures rank == RankOf(old(cards), id)
      ensures id !in old(cards) ==> rank == Unknown
      ensures cards == Touched(old(cards), id, now) && usage == old(usage)
    {
      rank := Unknown;
      if id in cards {
        rank := cards[id].rank;
        cards := cards[id := cards[id].(lastUsed := Some(now))];
      }
    }

    /** `SELECT … WHERE CardID IS id` came back with a row. */
    method Contains(id: CardId) returns (found: bool)
      ensures found <==> id in cards
    {
      found := id in cards;
    }

    /** `SELECT Name … WHERE CardID IS id`: `None` for a missing row and for NULL alike. */
    method FetchName(id: CardId) returns (name: Option<string>)
      ensures name.Some? <==> id in cards && cards[id].name.Some?
      ensures name.Some? ==> name.value == cards[id].name.value
    {
      name := None;
      if id in cards {
        name := cards[id].name;
      }
    }

    /** `INSERT INTO CardIDs`: fails on the primary key when the id is taken. */
    method Insert(id: CardId, rec: CardRecord) returns (ok: bool)
      modifies this
      ensures ok <==> id !in old(cards)
      ensures cards == (if ok then old(cards)[id := rec] else old(cards))
      ensures usage == old(usage)
    {
      ok := id !in cards;
      if ok {
        cards := cards[id := rec];
      }
    }

    /** `DELETE FROM CardIDs WHERE CardID IS id`; nothing happens when no row matches. */
    method Remove(id: CardId)
      modifies this
      ensures cards == old(cards) - {id} && usage == old(usage)
    {
      cards := cards - {id};
    }

    /** `DELETE FROM CardIDs`. */
    method RemoveAll()
      modifies this
      ensures cards == map[] && usage == old(usage)
    {
      cards := map[];
    }

    /** `INSERT INTO UsageLog`: fails when a row already has this time, the table's primary key. */
    method AppendUsage(entry: UsageEntry) returns (ok: bool)
      modifies this
      ensures ok <==> TimeFree(old(usage), entry.time)
      ensures usage == (if ok then old(usage) + [entry] else old(usage))
      ensures cards == old(cards)
    {
      ok := forall i :: 0 <= i < |usage| ==> usage[i].time != entry.time;
      if ok {
        usage := usage + [entry];
      }
    }

    /** One bootstrap step of `addDefaultCards`: SELECT, then INSERT when nothing came back. */
    method AddDefault(def: (CardId, CardRecord))
      modifies this
      ensures cards == AddIfAbsent(old(cards), def) && usage == old(usage)
    {
      var found := Contains(def.0);
      if !found {
        var _ := Insert(def.0, def.1);
      }
    }

    /** `addDefaultCards`: the five bootstrap cards, each inserted only when absent. */
    method AddDefaultCards()
      modifies this
      ensures cards == WithDefaults(old(cards)) && usage == old(usage)
    {
      ghost var c0 := cards;
      AddDefault(DefaultCards[0]);
      AddDefault(DefaultCards[1]);
      AddDefault(DefaultCards[2]);
      AddDefault(DefaultCards[3]);
      AddDefault(DefaultCards[4]);
      DefaultsUnrolled(c0);
    }
  }

  /** `WithDefaults` is the five insert-if-absent steps in the order the scripts take them. */
  lemma DefaultsUnrolled(c: CardTable)
    ensures WithDefaults(c)
         == AddIfAbsent(AddIfAbsent(AddIfAbsent(AddIfAbsent(AddIfAbsent(c,
              DefaultCards[0]), DefaultCards[1]), DefaultCards[2]), DefaultCards[3]), DefaultCards[4])
  {
    var d := DefaultCards;
    assert |d[5..]| == 0;
    var c1 := AddIfAbsent(c, d[0]);
    var c2 := AddIfAbsent(c1, d[1]);
    var c3 := AddIfAbsent(c2, d[2]);
    var c4 := AddIfAbsent(c3, d[3]);
    var c5 := AddIfAbsent(c4, d[4]);
    assert InsertAbsent(c4, d[4..]) == c5;
    assert InsertAbsent(c3, d[3..]) == c5;
    assert InsertAbsent(c2, d[2..]) == c5;
    assert InsertAbsent(c1, d[1..]) == c5;
  }
}
