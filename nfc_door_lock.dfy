/**
 * The card loop of nfcdoorlock.py. The reader sends a line "Card ID: <n>"
 * for each card it sees. The loop resolves the card's rank, toggles the
 * learning and deleting modes, enrolls, deletes, wipes or re-provisions,
 * logs the event, and answers with the rank as one byte (preceded by the
 * id as four big-endian bytes when `sendCard` is set). A mode stays on
 * until a card of the same rank is presented again, whichever card of
 * that rank turned it on.
 */
module NfcDoorLock {
  import opened Wrappers
  import opened Conversions
  import opened Store

  /** The text the reader puts before a card id. */
  const CardPrefix: string := "Card ID: "

  /** What a received line amounts to. */
  datatype Line =
    | NotACard          // too short, or not starting with the prefix: ignored
    | CardLine(id: CardId)
    | BadNumber         // `int()` raised on the text after the prefix

  /** Python's `s[:n]`. */
  function Take(s: string, n: nat): (r: string)
    ensures |r| == if |s| <= n then |s| else n
    ensures r == s[..|r|]
  {
    if |s| <= n then s else s[..n]
  }

  /**
   * The line check and parse: the line must be longer than 2 characters;
   * without its last two (the line ending) it must start with the prefix;
   * the rest is the decimal id.
   */
  function ParseLine(raw: string): (l: Line)
    ensures l != NotACard <==> |raw| >= 11 && raw[..9] == CardPrefix
    ensures l.CardLine? ==> ParseDecimal(raw[9..|raw| - 2]) == Some(l.id)
    ensures l.BadNumber? ==> ParseDecimal(raw[9..|raw| - 2]).None?
  {
    if |raw| <= 2 then NotACard
    else
      var rx := raw[..|raw| - 2];
      if Take(rx, 9) != CardPrefix then NotACard
      else
        assert rx[9..] == raw[9..|raw| - 2];
        match ParseDecimal(rx[9..])
        case None => BadNumber
        case Some(n) => CardLine(n)
  }

  /** The line the reader prints for card `n`, whatever its two-character line ending, parses back to `n`. */
  lemma ParseCardLine(n: CardId, eol: string)
    requires |eol| == 2
    ensures ParseLine(CardPrefix + ShowNat(n) + eol) == CardLine(n)
  {
    var raw := CardPrefix + ShowNat(n) + eol;
    assert raw[..9] == CardPrefix;
    assert raw[9..|raw| - 2] == ShowNat(n);
    ParseShowNat(n);
  }

  /** The administrative modes, kept across loop iterations. */
  datatype Modes = Modes(learning: bool, deleting: bool, deletingCard: CardId)

  predicate Exclusive(m: Modes) {
    !(m.learning && m.deleting)
  }

  /**
   * The toggles: a programming card flips learning unless deleting; a delete
   * card flips deleting unless learning, and records itself as the card that
   * did it.
   */
  function Toggle(m: Modes, rank: int, id: CardId): (r: Modes)
    ensures Exclusive(m) ==> Exclusive(r)
    ensures rank != Programming && rank != Delete ==> r == m
    ensures r.learning != m.learning <==> !m.deleting && rank == Programming
    ensures r.deleting != m.deleting <==> !m.learning && rank == Delete
    ensures r.deletingCard == if r.deleting != m.deleting then id else m.deletingCard
  {
    if !m.deleting && rank == Programming then m.(learning := !m.learning)
    else if !m.learning && rank == Delete then m.(deleting := !m.deleting, deletingCard := id)
    else m
  }

  /** The one change to `CardIDs` an event may make, besides `LastUsed`. */
  datatype Action = Enroll | Remove | WipeAll | Reprovision | NoAction

  /** The branch that runs, in the source's priority order; `m` is the modes after the toggles. */
  function ChooseAction(m: Modes, rank: int, id: CardId): Action {
    if m.learning && rank == Unknown then Enroll
    else if m.deleting && rank > Unknown && id != m.deletingCard then Remove
    else if rank == Wipe then WipeAll
    else if rank == Master then Reprovision
    else NoAction
  }

  /** The table after an action whose INSERT, if any, succeeds. */
  function Perform(a: Action, cards: CardTable, id: CardId): CardTable {
    match a
    case Enroll => cards[id := CardRecord(User, None, None)]
    case Remove => cards - {id}
    case WipeAll => map[]
    case Reprovision => WithDefaults(cards)
    case NoAction => cards
  }

  /** The loop's state: the modes and the two tables. */
  datatype State = State(modes: Modes, cards: CardTable, usage: seq<UsageEntry>)

  /** The result of one received line. */
  datatype Outcome =
    | Ignored                                    // the line was not a card line
    | Sent(bytes: seq<Byte>)                     // the bytes written to the serial port
    | Halted(failure: Failure, sent: seq<Byte>)  // an exception ended the loop after writing `sent`

  /** `sendCard` is off, or the id fits in four bytes: a reply can be encoded. */
  predicate IdEncodable(sendCard: bool, id: CardId) {
    !sendCard || id < Pow256(4)
  }

  /** The writes after logging: the optional 4-byte id, then the rank as one byte. */
  function Reply(sendCard: bool, id: CardId, rank: int): Outcome {
    var idBytes := if sendCard then ToBytesBE(id, 4) else Some([]);
    if idBytes.None? then Halted(IdOutOfRange, [])
    else
      match ToBytesBE(rank, 1)
      case None => Halted(RankOutOfRange, idBytes.value)
      case Some(rankByte) => Sent(idBytes.value + rankByte)
  }

  /** The loop body for card `id`. */
  function CardEvent(s: State, sendCard: bool, id: CardId, now: Timestamp): (State, Outcome) {
    var rank := RankOf(s.cards, id);
    var touched := Touched(s.cards, id, now);
    var modes := Toggle(s.modes, rank, id);
    var action := ChooseAction(modes, rank, id);
    if action == Enroll && id in touched then
      (State(modes, touched, s.usage), Halted(DuplicateCard, []))
    else
      var cards := Perform(action, touched, id);
      if !TimeFree(s.usage, now) then
        (State(modes, cards, s.usage), Halted(LogTimeTaken, []))
      else
        (State(modes, cards, s.usage + [UsageEntry(now, id, rank)]), Reply(sendCard, id, rank))
  }

  /** The loop body for one received line. */
  function Step(s: State, sendCard: bool, raw: string, now: Timestamp): (State, Outcome) {
    match ParseLine(raw)
    case NotACard => (s, Ignored)
    case BadNumber => (s, Halted(NotANumber, []))
    case CardLine(id) => CardEvent(s, sendCard, id, now)
  }

  /**
   * What the loop keeps true: the modes are never both on, and while
   * deleting, the card that turned deleting on is a stored delete card.
   */
  ghost predicate Invariant(s: State) {
    && Exclusive(s.modes)
    && (s.modes.deleting ==> s.modes.deletingCard in s.cards && s.cards[s.modes.deletingCard].rank == Delete)
  }

  /** Every line, whatever it does, keeps the invariant. */
  lemma StepKeepsInvariant(s: State, sendCard: bool, raw: string, now: Timestamp)
    requires Invariant(s)
    ensures Invariant(Step(s, sendCard, raw, now).0)
  {
    if ParseLine(raw).CardLine? {
      var id := ParseLine(raw).id;
      var rank := RankOf(s.cards, id);
      var modes := Toggle(s.modes, rank, id);
      var action := ChooseAction(modes, rank, id);
      var touched := Touched(s.cards, id, now);
      if modes.deleting {
        var d := modes.deletingCard;
        assert d in touched && touched[d].rank == Delete;
        assert action == WipeAll ==> false;
        assert action == Reprovision ==> false;
        if action == Remove {
          assert id != d;
        }
        if action == Enroll {
          assert false;
        }
      }
    }
  }

  /**
   * The delete card that turns deleting on is kept. After the toggle the
   * delete branch's other two conditions hold for it (deleting is on, its
   * rank is above 0), so it is the guard `cardId != deletingCard` alone that
   * stops the card from deleting itself.
   */
  lemma DeleteCardStartsDeleting(s: State, sendCard: bool, id: CardId, now: Timestamp)
    requires !s.modes.learning && !s.modes.deleting && RankOf(s.cards, id) == Delete
    ensures var m := Toggle(s.modes, Delete, id);
      && m.deleting && id == m.deletingCard
      && ChooseAction(m, Delete, id) == NoAction
    ensures var r := CardEvent(s, sendCard, id, now).0;
      && r.modes == Modes(false, true, id)
      && id in r.cards && r.cards == Touched(s.cards, id, now)
  {
  }

  /**
   * While deleting, any delete card, the one that turned deleting on
   * included, turns it off and is itself kept. So once deleting is on, the
   * guard `cardId != deletingCard` never decides: it decides only on the
   * event that turns deleting on (`DeleteCardStartsDeleting`).
   */
  lemma DeleteCardEndsDeleting(s: State, sendCard: bool, id: CardId, now: Timestamp)
    requires Invariant(s) && s.modes.deleting && RankOf(s.cards, id) == Delete
    ensures var r := CardEvent(s, sendCard, id, now).0;
      !r.modes.deleting && r.cards == Touched(s.cards, id, now)
  {
  }

  /**
   * Outside deleting mode a stored user, administrator or programming card
   * takes none of the four branches: the table changes only in the card's
   * last-use time, the event is logged with the stored rank, and only the
   * toggles touch the modes.
   */
  lemma OrdinaryCardOnlyTouched(s: State, sendCard: bool, id: CardId, now: Timestamp)
    requires Invariant(s) && !s.modes.deleting && id in s.cards
    requires s.cards[id].rank == User || s.cards[id].rank == Administrator || s.cards[id].rank == Programming
    requires TimeFree(s.usage, now)
    ensures var r := CardEvent(s, sendCard, id, now).0;
      && r.cards == Touched(s.cards, id, now)
      && r.usage == s.usage + [UsageEntry(now, id, s.cards[id].rank)]
      && r.modes == Toggle(s.modes, s.cards[id].rank, id)
  {
  }

  /**
   * In learning mode a stored card of rank 0 is sent to the enroll INSERT,
   * which hits the primary key: the loop halts with the card's last use
   * recorded, no log row and nothing written.
   */
  lemma LearningDuplicateHalts(s: State, sendCard: bool, id: CardId, now: Timestamp)
    requires s.modes.learning && id in s.cards && s.cards[id].rank == Unknown
    ensures CardEvent(s, sendCard, id, now)
      == (State(s.modes, Touched(s.cards, id, now), s.usage), Halted(DuplicateCard, []))
  {
  }

  /** A line that is not a card line changes nothing and writes nothing. */
  lemma IgnoredLine(s: State, sendCard: bool, raw: string, now: Timestamp)
    requires !(|raw| >= 11 && raw[..9] == CardPrefix)
    ensures Step(s, sendCard, raw, now) == (s, Ignored)
  {
  }

  /** An unknown card outside learning mode only adds a log row with rank 0, and the reply carries rank 0. */
  lemma UnknownCardOnlyLogged(s: State, sendCard: bool, id: CardId, now: Timestamp)
    requires id !in s.cards && !s.modes.learning && TimeFree(s.usage, now)
    ensures CardEvent(s, sendCard, id, now).0 == s.(usage := s.usage + [UsageEntry(now, id, Unknown)])
    ensures IdEncodable(sendCard, id) ==>
      CardEvent(s, sendCard, id, now).1 == Sent((if sendCard then EncodeBE(id, 4) else []) + [Unknown])
  {
    OneByte(Unknown);
  }

  /**
   * In learning mode an unknown card is stored as a user with no name and no
   * last use; learning stays on, the event is logged and answered with rank 0,
   * and the card resolves to a user from then on.
   */
  lemma LearningEnrolls(s: State, sendCard: bool, id: CardId, now: Timestamp)
    requires s.modes.learning && id !in s.cards && TimeFree(s.usage, now)
    ensures var (r, out) := CardEvent(s, sendCard, id, now);
      && r.cards == s.cards[id := CardRecord(User, None, None)]
      && r.modes == s.modes
      && r.usage == s.usage + [UsageEntry(now, id, Unknown)]
      && (IdEncodable(sendCard, id) ==> out.Sent? && out.bytes[|out.bytes| - 1] == Unknown)
      && RankOf(r.cards, id) == User
  {
    OneByte(Unknown);
  }

  /**
   * In deleting mode any stored card other than a delete card is removed,
   * special cards (wipe, programming, master) included, instead of being
   * acted on; no other row changes and deleting stays on.
   */
  lemma DeletingRemoves(s: State, sendCard: bool, id: CardId, now: Timestamp)
    requires Invariant(s) && s.modes.deleting
    requires id in s.cards && s.cards[id].rank > Unknown && s.cards[id].rank != Delete
    requires TimeFree(s.usage, now)
    ensures var r := CardEvent(s, sendCard, id, now).0;
      && r.cards == s.cards - {id}
      && r.modes == s.modes
      && r.usage == s.usage + [UsageEntry(now, id, s.cards[id].rank)]
  {
    var touched := Touched(s.cards, id, now);
    assert touched - {id} == s.cards - {id};
  }

  /** Outside deleting mode a wipe card empties `CardIDs`, bootstrap cards included, and does not re-provision. */
  lemma WipeEmptiesTable(s: State, sendCard: bool, id: CardId, now: Timestamp)
    requires !s.modes.deleting && id in s.cards && s.cards[id].rank == Wipe
    requires TimeFree(s.usage, now)
    ensures CardEvent(s, sendCard, id, now).0.cards == map[]
  {
  }

  /**
   * Outside deleting mode a master card re-provisions: every bootstrap card
   * is present afterwards and every existing row is kept.
   */
  lemma MasterReprovisions(s: State, sendCard: bool, id: CardId, now: Timestamp)
    requires !s.modes.deleting && id in s.cards && s.cards[id].rank == Master
    requires TimeFree(s.usage, now)
    ensures var r := CardEvent(s, sendCard, id, now).0;
      && r.cards == WithDefaults(Touched(s.cards, id, now))
      && r.cards.Keys == s.cards.Keys + DefaultTable().Keys
      && r.modes == s.modes
  {
    DefaultsPresent(Touched(s.cards, id, now));
  }

  /**
   * Each card event adds exactly one `UsageLog` row, holding the rank found
   * before any change, unless the enroll INSERT or the log INSERT itself
   * failed, which adds none and ends the loop.
   */
  lemma OneLogRowPerEvent(s: State, sendCard: bool, id: CardId, now: Timestamp)
    ensures var (r, out) := CardEvent(s, sendCard, id, now);
      if out.Halted? && (out.failure == DuplicateCard || out.failure == LogTimeTaken) then
        r.usage == s.usage
      else
        r.usage == s.usage + [UsageEntry(now, id, RankOf(s.cards, id))]
    ensures CardEvent(s, sendCard, id, now).1.Halted? && CardEvent(s, sendCard, id, now).1.failure == LogTimeTaken
      <==> !TimeFree(s.usage, now) && !(ChooseAction(Toggle(s.modes, RankOf(s.cards, id), id), RankOf(s.cards, id), id) == Enroll && id in s.cards)
  {
    var rank := RankOf(s.cards, id);
    var out := Reply(sendCard, id, rank);
    assert out.Halted? ==> out.failure == IdOutOfRange || out.failure == RankOutOfRange;
  }

  /**
   * The reply is the 4-byte big-endian id when `sendCard` is set, then one
   * byte equal to the rank; decoding the first four bytes gives the id back.
   */
  lemma ReplyLayout(sendCard: bool, id: CardId, rank: int)
    requires Reply(sendCard, id, rank).Sent?
    ensures var bytes := Reply(sendCard, id, rank).bytes;
      && |bytes| == (if sendCard then 5 else 1)
      && bytes[|bytes| - 1] == rank
      && (sendCard ==> FromBytesBE(bytes[..4]) == id)
  {
    OneByte(rank);
    if sendCard {
      var bytes := Reply(sendCard, id, rank).bytes;
      assert bytes[..4] == EncodeBE(id, 4);
    }
  }

  /** The reply fails exactly when an id to be sent needs more than four bytes, or the rank more than one. */
  lemma ReplyFailures(sendCard: bool, id: CardId, rank: int)
    ensures Reply(sendCard, id, rank).Halted? <==> !IdEncodable(sendCard, id) || !(0 <= rank < 256)
    ensures Reply(sendCard, id, rank) == Halted(IdOutOfRange, []) <==> !IdEncodable(sendCard, id)
  {
    assert Pow256(1) == 256;
  }

  /**
   * With both modes off and an empty log: the programming card `p` turns
   * learning on, the unknown card `u` is enrolled, `p` turns learning off,
   * and `u` then resolves to a user, with its last use recorded and four
   * log rows.
   */
  lemma EnrollScenario(s0: State, p: CardId, u: CardId)
    requires s0.modes == Modes(false, false, 0) && s0.usage == []
    requires p in s0.cards && s0.cards[p].rank == Programming && u !in s0.cards
    ensures var s1 := CardEvent(s0, false, p, 1).0;
      var s2 := CardEvent(s1, false, u, 2).0;
      var s3 := CardEvent(s2, false, p, 3).0;
      var e4 := CardEvent(s3, false, u, 4);
      && s1.modes.learning && u in s2.cards && !s3.modes.learning
      && e4.1 == Sent([User]) && u in e4.0.cards && e4.0.cards[u] == CardRecord(User, None, Some(4))
      && |e4.0.usage| == 4
  {
    var s1 := CardEvent(s0, false, p, 1).0;
    assert s1.modes == Modes(true, false, 0) && s1.usage == [UsageEntry(1, p, Programming)];
    assert s1.cards == Touched(s0.cards, p, 1);
    LearningEnrolls(s1, false, u, 2);
    var s2 := CardEvent(s1, false, u, 2).0;
    assert s2.cards[p].rank == Programming && TimeFree(s2.usage, 3);
    var s3 := CardEvent(s2, false, p, 3).0;
    assert s3.modes == Modes(false, false, 0) && s3.cards[u] == CardRecord(User, None, None);
    assert |s3.usage| == 3 && TimeFree(s3.usage, 4);
    OneByte(User);
  }

  /**
   * The nfcdoorlock.py main loop's state and one iteration of it. `sendCard`
   * is the configuration flag the script fixes at startup.
   */
  class Lock {
    const db: CardStore
    const sendCard: bool
    var learning: bool
    var deleting: bool
    var deletingCard: CardId

    function Current(): State
      reads this, db
    {
      State(Modes(learning, deleting, deletingCard), db.cards, db.usage)
    }

    ghost predicate Valid()
      reads this, db
    {
      Invariant(Current())
    }

    /** Startup: both modes off, `deletingCard` 0, and `addDefaultCards` run on the existing database. */
    constructor (db: CardStore, sendCard: bool)
      modifies db
      ensures this.db == db && this.sendCard == sendCard
      ensures Current() == State(Modes(false, false, 0), WithDefaults(old(db.cards)), old(db.usage))
      ensures Valid()
    {
      this.db := db;
      this.sendCard := sendCard;
      learning := false;
      deleting := false;
      deletingCard := 0;
      new;
      db.AddDefaultCards();
    }

    /** One iteration of the loop on the received line `raw`, at time `now`. */
    method HandleLine(raw: string, now: Timestamp) returns (outcome: Outcome)
      requires Valid()
      modifies this, db
      ensures Valid()
      ensures (Current(), outcome) == Step(old(Current()), sendCard, raw, now)
    {
      StepKeepsInvariant(Current(), sendCard, raw, now);
      if |raw| <= 2 {
        return Ignored;
      }
      var rx := raw[..|raw| - 2];
      if Take(rx, 9) != CardPrefix {
        return Ignored;
      }
      var parsed := ParseDecimal(rx[9..]);
      if parsed.None? {
        return Halted(NotANumber, []);
      }
      assert ParseLine(raw) == CardLine(parsed.value);
      outcome := HandleCard(parsed.value, now);
    }

    /** The loop body once the line has given the card id `cardId`. */
    method HandleCard(cardId: CardId, now: Timestamp) returns (outcome: Outcome)
      modifies this, db
      ensures (Current(), outcome) == CardEvent(old(Current()), sendCard, cardId, now)
    {
      var cardRank := db.Lookup(cardId, now);
      ToggleModes(cardId, cardRank);
      var applied := ApplyAction(cardId, cardRank);
      if !applied {
        return Halted(DuplicateCard, []);
      }

      var logged := db.AppendUsage(UsageEntry(now, cardId, cardRank));
      if !logged {
        return Halted(LogTimeTaken, []);
      }
      outcome := WriteReply(cardId, cardRank);
    }

    /** The two mode toggles for a card of rank `cardRank`. */
    method ToggleModes(cardId: CardId, cardRank: int)
      modifies this`learning, this`deleting, this`deletingCard
      ensures Modes(learning, deleting, deletingCard)
        == Toggle(old(Modes(learning, deleting, deletingCard)), cardRank, cardId)
    {
      if !deleting && cardRank == Programming {
        learning := !learning;
      } else if !learning && cardRank == Delete {
        deleting := !deleting;
        deletingCard := cardId;
      }
    }

    /**
     * The action chosen for the card after the toggles. It reports false,
     * changing nothing, when the enroll INSERT finds the id already present.
     */
    method ApplyAction(cardId: CardId, cardRank: int) returns (applied: bool)
      modifies db
      ensures var a := ChooseAction(Modes(learning, deleting, deletingCard), cardRank, cardId);
        && (applied <==> !(a == Enroll && cardId in old(db.cards)))
        && db.cards == (if applied then Perform(a, old(db.cards), cardId) else old(db.cards))
      ensures db.usage == old(db.usage)
    {
      applied := true;
      if learning && cardRank == Unknown {
        applied := db.Insert(cardId, CardRecord(User, None, None));
      } else if deleting && cardRank > Unknown && cardId != deletingCard {
        db.Remove(cardId);
      } else if cardRank == Wipe {
        db.RemoveAll();
      } else if cardRank == Master {
        db.AddDefaultCards();
      }
    }

    /** The serial writes that end a logged event: the id when `sendCard` is set, then the rank. */
    method WriteReply(cardId: CardId, cardRank: int) returns (outcome: Outcome)
      ensures outcome == Reply(sendCard, cardId, cardRank)
      ensures outcome.Sent? <==> IdEncodable(sendCard, cardId) && 0 <= cardRank < 256
    {
      assert Pow256(1) == 256;
      var sent: seq<Byte> := [];
      if sendCard {
        var idBytes := ToBytesBE(cardId, 4);
        if idBytes.None? {
          return Halted(IdOutOfRange, []);
        }
        sent := idBytes.value;
      }
      var rankByte := ToBytesBE(cardRank, 1);
      if rankByte.None? {
        return Halted(RankOutOfRange, sent);
      }
      outcome := Sent(sent + rankByte.value);
    }
  }
}
