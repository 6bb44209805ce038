/**
 * The card loop of DoorLock_RaspberryPi.py. The Arduino sends a bare card
 * id per line. The loop resolves the card's rank. In idle mode it sends the
 * rank as decimal text to the Arduino and to the Thunderbird. In
 * programming mode it enrolls an unknown card; in deleting mode it deletes a
 * user card; either mode ends after that one card. Otherwise a wipe card
 * empties the table and a master card re-provisions it. It logs the event,
 * sends a user's or administrator's name to the Arduino and ends each pass
 * with a 'c' to both boards.
 */
module RaspberryPi {
  import opened Wrappers
  import opened Conversions
  import opened Store
  import Thunderbird

  /** The shortest id text the loop accepts as a card. */
  const MinIdLength := 9

  /** `programming` and `deleting`, kept across loop iterations. */
  datatype Modes = Modes(programming: bool, deleting: bool)

  predicate Exclusive(m: Modes) {
    !(m.programming && m.deleting)
  }

  predicate Idle(m: Modes) {
    !m.programming && !m.deleting
  }

  /** The loop's state: the modes and the two tables. */
  datatype State = State(modes: Modes, cards: CardTable, usage: seq<UsageEntry>)

  /**
   * What one pass writes to the Arduino and to the Thunderbird, and the
   * exception that ended the loop, if one did (the writes made before it stand).
   */
  datatype Output = Output(arduino: string, thunderbird: string, failure: Option<Failure>)

  /** The `if/elif` chain's effect: the modes it resets, the table, and the acknowledgements it writes. */
  datatype Resolution = Resolution(modes: Modes, cards: CardTable, arduinoAck: string, thunderbirdAck: string)

  /** In idle mode the rank goes out as decimal text to both boards; otherwise nothing. */
  function Announce(m: Modes, rank: int): string {
    if Idle(m) then ShowInt(rank) else ""
  }

  /**
   * The chain after the lookup, given that an enroll INSERT succeeds:
   * programming enrolls an unknown card, deleting deletes a user card, each
   * acknowledged and ended; else a wipe card empties and a master card
   * re-provisions the table.
   */
  function Resolve(m: Modes, rank: int, cards: CardTable, id: CardId): (r: Resolution)
    ensures Exclusive(m) ==> Idle(r.modes)
    ensures Idle(m) <==> r.arduinoAck == "" && r.thunderbirdAck == ""
    ensures !Idle(m) ==> r.cards - {id} == cards - {id}
    ensures Idle(m) && rank != Wipe && rank != Master ==> r.cards == cards
  {
    if m.programming then
      if rank == Unknown then Resolution(m.(programming := false), cards[id := CardRecord(User, None, None)], "1", "4")
      else Resolution(m.(programming := false), cards, "0", "4")
    else if m.deleting then
      if rank == User then Resolution(m.(deleting := false), cards - {id}, "1", "5")
      else Resolution(m.(deleting := false), cards, "0", "5")
    else if rank == Wipe then Resolution(m, map[], "", "")
    else if rank == Master then Resolution(m, WithDefaults(cards), "", "")
    else Resolution(m, cards, "", "")
  }

  /** The toggles, applied to the modes the chain left. */
  function Toggle(m: Modes, rank: int): (r: Modes)
    ensures Exclusive(m) ==> Exclusive(r)
    ensures rank != Programming && rank != Delete ==> r == m
    ensures r.programming != m.programming <==> !m.deleting && rank == Programming
    ensures r.deleting != m.deleting <==> !m.programming && rank == Delete
  {
    if !m.deleting && rank == Programming then m.(programming := !m.programming)
    else if !m.programming && rank == Delete then m.(deleting := !m.deleting)
    else m
  }

  /** The chain followed by the toggles; `None` when the enroll INSERT finds the id already stored. */
  function Chain(m: Modes, rank: int, cards: CardTable, id: CardId): (r: Option<Resolution>)
    ensures r.None? <==> m.programming && rank == Unknown && id in cards
    ensures Exclusive(m) && r.Some? ==> r.value.modes == Modes(rank == Programming, rank == Delete)
  {
    if m.programming && rank == Unknown && id in cards then None
    else
      var res := Resolve(m, rank, cards, id);
      Some(res.(modes := Toggle(res.modes, rank)))
  }

  /** The name sent for a user or administrator: the stored name, or the id in decimal when there is none. */
  function NameText(cards: CardTable, id: CardId): string {
    NameOf(cards, id).GetOr(ShowNat(id))
  }

  /**
   * The pass for card `id` up to the log INSERT: the lookup, the rank
   * announced in idle mode, the chain and the toggles. `duplicate` says the
   * enroll INSERT failed, which ends the pass right there.
   */
  datatype Prepared = Prepared(state: State, arduino: string, thunderbird: string, duplicate: bool)

  function Prepare(s: State, id: CardId, now: Timestamp): Prepared {
    var rank := RankOf(s.cards, id);
    var touched := Touched(s.cards, id, now);
    var shown := Announce(s.modes, rank);
    match Chain(s.modes, rank, touched, id)
    case None => Prepared(State(s.modes, touched, s.usage), shown, shown, true)
    case Some(res) => Prepared(State(res.modes, res.cards, s.usage), shown + res.arduinoAck, shown + res.thunderbirdAck, false)
  }

  /** The rest of the pass: the log INSERT, then the name text for a user or administrator. */
  datatype Tail = Tail(state: State, name: string, failure: Option<Failure>)

  function LogTail(st: State, id: CardId, rank: int, now: Timestamp): Tail {
    if !TimeFree(st.usage, now) then Tail(st, "", Some(LogTimeTaken))
    else
      var name := if rank == User || rank == Administrator then NameText(st.cards, id) else "";
      Tail(st.(usage := st.usage + [UsageEntry(now, id, rank)]), name, None)
  }

  /** The pass for card `id`, up to but not including the closing 'c'. */
  function CardEvent(s: State, id: CardId, now: Timestamp): (State, Output) {
    var p := Prepare(s, id, now);
    if p.duplicate then (p.state, Output(p.arduino, p.thunderbird, Some(DuplicateCard)))
    else
      var t := LogTail(p.state, id, RankOf(s.cards, id), now);
      (t.state, Output(p.arduino + t.name, p.thunderbird, t.failure))
  }

  /** One pass of the loop on the received line `raw`. */
  function Step(s: State, raw: string, now: Timestamp): (State, Output) {
    if |raw| <= 2 || |raw| - 2 < MinIdLength then (s, Output("c", "c", None))
    else
      match ParseDecimal(raw[..|raw| - 2])
      case None => (s, Output("", "", Some(NotANumber)))
      case Some(id) =>
        var (s', out) := CardEvent(s, id, now);
        if out.failure.Some? then (s', out)
        else (s', Output(out.arduino + "c", out.thunderbird + "c", None))
  }

  /** A line too short to hold a card id changes nothing and writes only the closing 'c' to each board. */
  lemma UnusableLine(s: State, raw: string, now: Timestamp)
    requires |raw| < 2 + MinIdLength
    ensures Step(s, raw, now) == (s, Output("c", "c", None))
  {
  }

  /** A line of at least nine characters that is not a decimal number ends the loop with nothing written. */
  lemma NonNumericLine(s: State, raw: string, now: Timestamp)
    requires |raw| >= 2 + MinIdLength && !AllDigits(raw[..|raw| - 2])
    ensures Step(s, raw, now) == (s, Output("", "", Some(NotANumber)))
  {
  }

  /** The id line the Arduino prints, with its two-character line ending, is the card event for that id. */
  lemma CardLine(s: State, id: CardId, eol: string, now: Timestamp)
    requires |eol| == 2 && |ShowNat(id)| >= MinIdLength
    ensures var out := CardEvent(s, id, now).1;
      Step(s, ShowNat(id) + eol, now)
        == (CardEvent(s, id, now).0,
            if out.failure.Some? then out else Output(out.arduino + "c", out.thunderbird + "c", None))
  {
    var raw := ShowNat(id) + eol;
    assert raw[..|raw| - 2] == ShowNat(id);
    ParseShowNat(id);
  }

  /**
   * After every card event the modes are decided by the card alone:
   * programming is on exactly when it was a programming card and deleting
   * exactly when it was a delete card. Each mode therefore lasts for one
   * card and the two are never on together. A failed enroll changes no mode.
   */
  lemma ModesAfterEvent(s: State, id: CardId, now: Timestamp)
    requires Exclusive(s.modes)
    ensures var (r, out) := CardEvent(s, id, now);
      if out.failure == Some(DuplicateCard) then r.modes == s.modes
      else r.modes == Modes(RankOf(s.cards, id) == Programming, RankOf(s.cards, id) == Delete)
  {
  }

  /** No line lets both modes be on. */
  lemma StepKeepsExclusive(s: State, raw: string, now: Timestamp)
    requires Exclusive(s.modes)
    ensures Exclusive(Step(s, raw, now).0.modes)
  {
    if |raw| > 2 && |raw| - 2 >= MinIdLength && ParseDecimal(raw[..|raw| - 2]).Some? {
      ModesAfterEvent(s, ParseDecimal(raw[..|raw| - 2]).value, now);
    }
  }

  /**
   * In idle mode both boards receive the rank in decimal; the Arduino then
   * receives the name for a user or administrator. A wipe card empties the
   * table, a master card re-provisions it, and any other card changes
   * only its last-use time.
   */
  lemma IdleEvent(s: State, id: CardId, now: Timestamp)
    requires Idle(s.modes) && TimeFree(s.usage, now)
    ensures var rank := RankOf(s.cards, id);
      var (r, out) := CardEvent(s, id, now);
      && out.failure == None
      && out.thunderbird == ShowInt(rank)
      && out.arduino == ShowInt(rank) + (if rank == User || rank == Administrator then NameText(s.cards, id) else "")
      && r.cards == (if rank == Wipe then map[] else if rank == Master then WithDefaults(Touched(s.cards, id, now))
                     else Touched(s.cards, id, now))
  {
  }

  /**
   * In programming mode an unknown card is stored as a user with no name,
   * the Arduino gets "1" and the Thunderbird "4", and programming ends.
   */
  lemma ProgrammingEnrolls(s: State, id: CardId, now: Timestamp)
    requires s.modes == Modes(true, false) && id !in s.cards && TimeFree(s.usage, now)
    ensures var (r, out) := CardEvent(s, id, now);
      && r.cards == s.cards[id := CardRecord(User, None, None)]
      && out == Output("1", "4", None)
      && r.modes == Modes(false, false)
      && r.usage == s.usage + [UsageEntry(now, id, Unknown)]
      && RankOf(r.cards, id) == User
  {
  }

  /**
   * In programming mode a stored card is refused: the Arduino gets "0",
   * followed by the name only for a user or administrator, and the
   * Thunderbird "4"; the table changes only in the card's last-use time.
   * Programming ends; a programming card turns it straight back on, a
   * delete card turns deleting on.
   */
  lemma ProgrammingRefusesKnown(s: State, id: CardId, now: Timestamp)
    requires s.modes == Modes(true, false) && id in s.cards && s.cards[id].rank != Unknown
    requires TimeFree(s.usage, now)
    ensures var rank := s.cards[id].rank;
      var (r, out) := CardEvent(s, id, now);
      && r.cards == Touched(s.cards, id, now)
      && out == Output("0" + (if rank == User || rank == Administrator then NameText(s.cards, id) else ""), "4", None)
      && r.modes == Modes(rank == Programming, rank == Delete)
  {
    assert NameOf(Touched(s.cards, id, now), id) == NameOf(s.cards, id);
  }

  /**
   * In deleting mode a user card is deleted: the Arduino gets "1" followed
   * by the id in decimal (the name query finds the row gone), the
   * Thunderbird "5", and deleting ends.
   */
  lemma DeletingRemovesUser(s: State, id: CardId, now: Timestamp)
    requires s.modes == Modes(false, true) && id in s.cards && s.cards[id].rank == User
    requires TimeFree(s.usage, now)
    ensures var (r, out) := CardEvent(s, id, now);
      && r.cards == s.cards - {id}
      && out == Output("1" + ShowNat(id), "5", None)
      && r.modes == Modes(false, false)
  {
    assert Touched(s.cards, id, now) - {id} == s.cards - {id};
  }

  /**
   * In deleting mode any card that is not a user card is kept, special
   * cards included: the Arduino gets "0", followed by the name only for an
   * administrator, and the Thunderbird "5". Deleting ends; a delete card
   * turns it straight back on, a programming card turns programming on.
   */
  lemma DeletingRefusesOthers(s: State, id: CardId, now: Timestamp)
    requires s.modes == Modes(false, true) && RankOf(s.cards, id) != User
    requires TimeFree(s.usage, now)
    ensures var rank := RankOf(s.cards, id);
      var (r, out) := CardEvent(s, id, now);
      && r.cards == Touched(s.cards, id, now)
      && out == Output("0" + (if rank == User || rank == Administrator then NameText(s.cards, id) else ""), "5", None)
      && r.modes == Modes(rank == Programming, rank == Delete)
  {
    assert NameOf(Touched(s.cards, id, now), id) == NameOf(s.cards, id);
  }

  /**
   * Each card event adds exactly one `UsageLog` row, holding the rank found
   * before any change, unless the enroll INSERT or the log INSERT failed,
   * which adds none.
   */
  lemma OneLogRowPerEvent(s: State, id: CardId, now: Timestamp)
    ensures var (r, out) := CardEvent(s, id, now);
      if out.failure.Some? then r.usage == s.usage
      else r.usage == s.usage + [UsageEntry(now, id, RankOf(s.cards, id))]
    ensures CardEvent(s, id, now).1.failure == Some(LogTimeTaken)
      <==> !TimeFree(s.usage, now) && !(s.modes.programming && RankOf(s.cards, id) == Unknown && id in s.cards)
  {
  }

  /** The rank text sent in idle mode holds no 'c', so it never ends a Thunderbird message early. */
  lemma ShowIntHasNoC(n: int)
    ensures forall i :: 0 <= i < |ShowInt(n)| ==> ShowInt(n)[i] != 'c'
  {
    if n < 0 {
      var t := ShowNat(-n);
      assert ShowInt(n) == "-" + t;
      assert forall i :: 0 < i < |ShowInt(n)| ==> ShowInt(n)[i] == t[i - 1];
    }
  }

  /** What a completed card event sends the Thunderbird before the closing 'c'. */
  function ThunderbirdMessage(m: Modes, rank: int): string {
    if Idle(m) then ShowInt(rank) else if m.programming then "4" else "5"
  }

  /**
   * A completed card event sends the Thunderbird the rank in decimal in
   * idle mode, "4" in programming mode and "5" in deleting mode.
   */
  lemma ThunderbirdText(s: State, id: CardId, now: Timestamp)
    requires Exclusive(s.modes) && CardEvent(s, id, now).1.failure == None
    ensures CardEvent(s, id, now).1.thunderbird == ThunderbirdMessage(s.modes, RankOf(s.cards, id))
  {
  }

  /** Among the ranks the `Rank` enumeration defines, the decimal text starts with '1' or '2' only for user and administrator. */
  lemma GrantingRanks(rank: int)
    requires Unknown <= rank <= Master
    ensures Thunderbird.Grants(ShowInt(rank)[0]) <==> rank == User || rank == Administrator
  {
    assert ShowInt(rank) == [DigitChar(rank)];
  }

  /**
   * The Thunderbird, locked and at a message boundary, fed what one
   * completed card event sends it: the door is open after the message
   * exactly when the loop was idle and the rank text starts with '1' or
   * '2', which for the ranks the `Rank` enumeration defines means a user or
   * an administrator card. The closing 'c' locks the door again.
   */
  lemma DoorFollowsMessage(b: Thunderbird.Board, m: Modes, rank: int)
    requires Thunderbird.Locked(b)
    ensures var sent := ThunderbirdMessage(m, rank);
      && (!Thunderbird.Locked(Thunderbird.Serve(b, sent).0) <==> Idle(m) && Thunderbird.Grants(ShowInt(rank)[0]))
      && (Unknown <= rank <= Master ==>
            (!Thunderbird.Locked(Thunderbird.Serve(b, sent).0) <==> Idle(m) && (rank == User || rank == Administrator)))
      && Thunderbird.Locked(Thunderbird.Serve(b, sent + "c").0)
  {
    ShowIntHasNoC(rank);
    Thunderbird.OneMessage(b, ThunderbirdMessage(m, rank));
    if Unknown <= rank <= Master {
      GrantingRanks(rank);
    }
  }

  /**
   * When the log INSERT fails after an idle user or administrator card, the
   * rank has already gone out and the closing 'c' never does: the
   * Thunderbird is left unlocked, waiting for a 'c'. Each pass sleeps five
   * seconds before its 'c' (DoorLock_RaspberryPi.py:156), so within one run
   * the log's `Time` is taken only if the clock stands still or steps back;
   * otherwise the taken row comes from an earlier run.
   */
  lemma LogFailureLeavesDoorOpen(s: State, id: CardId, now: Timestamp, b: Thunderbird.Board)
    requires Thunderbird.Locked(b) && Idle(s.modes) && !TimeFree(s.usage, now)
    requires RankOf(s.cards, id) == User || RankOf(s.cards, id) == Administrator
    ensures var out := CardEvent(s, id, now).1;
      && out.failure == Some(LogTimeTaken)
      && !Thunderbird.Locked(Thunderbird.Serve(b, out.thunderbird).0)
      && Thunderbird.Serve(b, out.thunderbird).1
  {
    var sent := CardEvent(s, id, now).1.thunderbird;
    assert sent == ShowInt(RankOf(s.cards, id));
    ShowIntHasNoC(RankOf(s.cards, id));
    Thunderbird.OneMessage(b, sent);
  }

  /** The DoorLock_RaspberryPi.py main loop's state, with the text written to each serial port so far. */
  class DoorLock {
    const db: CardStore
    var programming: bool
    var deleting: bool
    var arduino: string
    var thunderbird: string

    function Current(): State
      reads this, db
    {
      State(Modes(programming, deleting), db.cards, db.usage)
    }

    ghost predicate Valid()
      reads this, db
    {
      Exclusive(Current().modes)
    }

    /** Startup: both modes off, nothing written yet, and `addDefaultCards` run on the existing database. */
    constructor (db: CardStore)
      modifies db
      ensures this.db == db && arduino == [] && thunderbird == []
      ensures Current() == State(Modes(false, false), WithDefaults(old(db.cards)), old(db.usage))
      ensures Valid()
    {
      this.db := db;
      programming := false;
      deleting := false;
      arduino := [];
      thunderbird := [];
      new;
      db.AddDefaultCards();
    }

    /** One pass of the loop on the received line `raw`, at time `now`; `failure` is the exception that ended the loop. */
    method HandleLine(raw: string, now: Timestamp) returns (failure: Option<Failure>)
      requires Valid()
      modifies this, db
      ensures Valid()
      ensures var (s, out) := Step(old(Current()), raw, now);
        && Current() == s && failure == out.failure
        && arduino == old(arduino) + out.arduino
        && thunderbird == old(thunderbird) + out.thunderbird
    {
      StepKeepsExclusive(Current(), raw, now);
      if |raw| > 2 {
        var rx := raw[..|raw| - 2];
        if |rx| >= MinIdLength {
          var parsed := ParseDecimal(rx);
          if parsed.None? {
            return Some(NotANumber);
          }
          failure := HandleCard(parsed.value, now);
          if failure.Some? {
            return;
          }
        }
      }
      arduino := arduino + "c";
      thunderbird := thunderbird + "c";
      failure := None;
    }

    /** The pass for card `cardId`, from the rank lookup to the name; the closing 'c' is the caller's. */
    method HandleCard(cardId: CardId, now: Timestamp) returns (failure: Option<Failure>)
      modifies this, db
      ensures var (s, out) := CardEvent(old(Current()), cardId, now);
        && Current() == s && failure == out.failure
        && arduino == old(arduino) + out.arduino
        && thunderbird == old(thunderbird) + out.thunderbird
    {
      var cardRank, resolved := PrepareCard(cardId, now);
      if !resolved {
        return Some(DuplicateCard);
      }
      failure := LogAndName(cardId, cardRank, now);
    }

    /** The pass up to the log INSERT; `resolved` is false when the enroll INSERT failed. */
    method PrepareCard(cardId: CardId, now: Timestamp) returns (cardRank: int, resolved: bool)
      modifies this, db
      ensures var p := Prepare(old(Current()), cardId, now);
        && cardRank == RankOf(old(db.cards), cardId) && resolved == !p.duplicate
        && Current() == p.state
        && arduino == old(arduino) + p.arduino
        && thunderbird == old(thunderbird) + p.thunderbird
    {
      cardRank := db.Lookup(cardId, now);
      AnnounceRank(cardRank);
      resolved := ResolveAndToggle(cardId, cardRank);
    }

    /** The chain, then, unless the enroll INSERT failed, the toggles. */
    method ResolveAndToggle(cardId: CardId, cardRank: int) returns (resolved: bool)
      modifies this`programming, this`deleting, this`arduino, this`thunderbird, db
      ensures var r := Chain(old(Modes(programming, deleting)), cardRank, old(db.cards), cardId);
        && resolved == r.Some?
        && (r.Some? ==>
              && Modes(programming, deleting) == r.value.modes && db.cards == r.value.cards
              && arduino == old(arduino) + r.value.arduinoAck && thunderbird == old(thunderbird) + r.value.thunderbirdAck)
        && (r.None? ==>
              && Modes(programming, deleting) == old(Modes(programming, deleting)) && db.cards == old(db.cards)
              && arduino == old(arduino) && thunderbird == old(thunderbird))
      ensures db.usage == old(db.usage)
    {
      resolved := ResolveCard(cardId, cardRank);
      if resolved {
        ToggleModes(cardRank);
      }
    }

    /** In idle mode, the rank in decimal to both boards. */
    method AnnounceRank(cardRank: int)
      modifies this`arduino, this`thunderbird
      ensures arduino == old(arduino) + Announce(Modes(programming, deleting), cardRank)
      ensures thunderbird == old(thunderbird) + Announce(Modes(programming, deleting), cardRank)
    {
      if !programming && !deleting {
        var shown := ShowInt(cardRank);
        arduino := arduino + shown;
        thunderbird := thunderbird + shown;
      }
    }

    /** The log INSERT, then the name of a user or administrator to the Arduino. */
    method LogAndName(cardId: CardId, cardRank: int, now: Timestamp) returns (failure: Option<Failure>)
      modifies this`arduino, db
      ensures var t := LogTail(old(Current()), cardId, cardRank, now);
        && Current() == t.state && failure == t.failure
        && arduino == old(arduino) + t.name
    {
      var logged := db.AppendUsage(UsageEntry(now, cardId, cardRank));
      if !logged {
        return Some(LogTimeTaken);
      }
      if cardRank == User || cardRank == Administrator {
        var name := db.FetchName(cardId);
        arduino := arduino + name.GetOr(ShowNat(cardId));
      }
      failure := None;
    }

    /**
     * The `if/elif` chain for a card of rank `cardRank`. It reports false,
     * having changed and written nothing, when the enroll INSERT finds the
     * id already present.
     */
    method ResolveCard(cardId: CardId, cardRank: int) returns (resolved: bool)
      modifies this`programming, this`deleting, this`arduino, this`thunderbird, db
      ensures var res := Resolve(old(Modes(programming, deleting)), cardRank, old(db.cards), cardId);
        && (resolved <==> !(old(programming) && cardRank == Unknown && cardId in old(db.cards)))
        && (resolved ==>
              && Modes(programming, deleting) == res.modes && db.cards == res.cards
              && arduino == old(arduino) + res.arduinoAck && thunderbird == old(thunderbird) + res.thunderbirdAck)
        && (!resolved ==>
              && Modes(programming, deleting) == old(Modes(programming, deleting)) && db.cards == old(db.cards)
              && arduino == old(arduino) && thunderbird == old(thunderbird))
      ensures db.usage == old(db.usage)
    {
      resolved := true;
      if programming {
        if cardRank == Unknown {
          resolved := db.Insert(cardId, CardRecord(User, None, None));
          if !resolved {
            return;
          }
          arduino := arduino + "1";
        } else {
          arduino := arduino + "0";
        }
        thunderbird := thunderbird + "4";
        programming := false;
      } else if deleting {
        if cardRank == User {
          db.Remove(cardId);
          arduino := arduino + "1";
        } else {
          arduino := arduino + "0";
        }
        thunderbird := thunderbird + "5";
        deleting := false;
      } else if cardRank == Wipe {
        db.RemoveAll();
      } else if cardRank == Master {
        db.AddDefaultCards();
      }
    }

    /** The two mode toggles for a card of rank `cardRank`. */
    method ToggleModes(cardRank: int)
      modifies this`programming, this`deleting
      ensures Modes(programming, deleting) == Toggle(old(Modes(programming, deleting)), cardRank)
    {
      if !deleting && cardRank == Programming {
        programming := !programming;
      } else if !programming && cardRank == Delete {
        deleting := !deleting;
      }
    }
  }
}
