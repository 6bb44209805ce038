/**
 * The door-strike board (DoorLock_Thunderbird/Sources/main.c). It takes one
 * character off its receive queue, switches the relay on port B according
 * to it, drains the queue up to and including the next 'c', and locks the
 * door again.
 */
module Thunderbird {

  /** `RELAY_PIN`: bit 4 of port B drives the relay, which is active low. */
  const RelayPin: bv8 := 0x10

  /** What the LEDs and the piezo announce. */
  datatype Alert = AuthFailed | AuthSucceeded

  /** The globals the main loop changes: `PORTB`, `ticks`, and the alerts it has shown. */
  datatype Board = Board(portB: bv8, ticks: nat, alerts: seq<Alert>)

  /** The relay bit is high, so the relay is off and the door is locked. */
  predicate Locked(b: Board) {
    b.portB & RelayPin == RelayPin
  }

  /** The characters the Raspberry Pi sends for a card that opens the door: user and administrator. */
  predicate Grants(ch: char) {
    ch == '1' || ch == '2'
  }

  /** The board after `lock()`: relay bit set, `ticks` reset, every other bit of `PORTB` kept. */
  function AfterLock(b: Board): (r: Board)
    ensures Locked(r) && r.ticks == 0 && r.alerts == b.alerts
    ensures r.portB & !RelayPin == b.portB & !RelayPin
  {
    b.(portB := b.portB | RelayPin, ticks := 0)
  }

  /** The board after `unlock()`: relay bit cleared, every other bit kept, success shown. */
  function AfterUnlock(b: Board): (r: Board)
    ensures !Locked(r) && r.ticks == b.ticks && r.alerts == b.alerts + [AuthSucceeded]
    ensures r.portB & !RelayPin == b.portB & !RelayPin
  {
    b.(portB := b.portB & !RelayPin, alerts := b.alerts + [AuthSucceeded])
  }

  /** The `switch` on the first character of a message. */
  function Dispatch(b: Board, ch: char): (r: Board)
    ensures ch == '0' ==> Locked(r) && r.ticks == 0 && r.alerts == b.alerts + [AuthFailed]
    ensures Grants(ch) ==> !Locked(r) && r.ticks == b.ticks && r.alerts == b.alerts + [AuthSucceeded]
    ensures ch != '0' && !Grants(ch) ==> r == b
    ensures r.portB & !RelayPin == b.portB & !RelayPin
  {
    if ch == '0' then AfterLock(b).(alerts := b.alerts + [AuthFailed])
    else if Grants(ch) then AfterUnlock(b)
    else b
  }

  /**
   * One character taken off the queue. `draining` says where the main loop
   * stands: false at the outer `getq()`, where the character is the first
   * of a message and goes through the `switch`; true in the inner loop that
   * discards characters until a 'c'. A 'c' in either place ends the message
   * and the loop calls `lock()`.
   */
  function Step(b: Board, draining: bool, ch: char): (r: (Board, bool))
    ensures r.1 <==> ch != 'c'
    ensures !r.1 ==> Locked(r.0) && r.0.ticks == 0
    ensures draining ==> r.0 == b || (ch == 'c' && r.0 == AfterLock(b))
  {
    var b1 := if draining then b else Dispatch(b, ch);
    if ch == 'c' then (AfterLock(b1), false) else (b1, true)
  }

  /**
   * The board after the main loop, started at a message boundary, has taken
   * every character of `s`, and whether it is then inside a message, waiting
   * for its 'c'.
   */
  function Serve(b: Board, s: seq<char>): (r: (Board, bool))
    ensures r.1 <==> s != [] && s[|s| - 1] != 'c'
    ensures s != [] && !r.1 ==> Locked(r.0) && r.0.ticks == 0
    decreases |s|
  {
    if s == [] then (b, false)
    else
      var prev := Serve(b, s[..|s| - 1]);
      Step(prev.0, prev.1, s[|s| - 1])
  }

  /** Position `j` of `s` starts a message: it is the first character, or the one after a 'c'. */
  predicate StartsMessage(s: seq<char>, j: int)
    requires 0 <= j < |s|
  {
    j == 0 || s[j - 1] == 'c'
  }

  /** No 'c' at or after position `j`. */
  predicate NoCFrom(s: seq<char>, j: int) {
    forall i :: 0 <= j <= i < |s| ==> s[i] != 'c'
  }

  /** Some message of `s` begins with '1' or '2' and has not been ended by a 'c'. */
  predicate OpenMessage(s: seq<char>) {
    exists j :: 0 <= j < |s| && StartsMessage(s, j) && Grants(s[j]) && NoCFrom(s, j)
  }

  /**
   * Starting locked, the door is open after the board has read `s` exactly
   * when the last message begins with '1' or '2' and its 'c' has not come yet.
   * Since `s` may be any prefix of the input, the door is open only between
   * a granting first character and the 'c' that follows it.
   */
  lemma {:induction false} OpenOnlyWithinGrant(b: Board, s: seq<char>)
    requires Locked(b)
    ensures !Locked(Serve(b, s).0) <==> OpenMessage(s)
    decreases |s|
  {
    if s != [] {
      var p, ch := s[..|s| - 1], s[|s| - 1];
      assert s == p + [ch];
      OpenOnlyWithinGrant(b, p);
      var prev := Serve(b, p);
      if ch == 'c' {
        assert !OpenMessage(s);
      } else if !prev.1 {
        assert Locked(prev.0);
        if OpenMessage(s) {
          var j :| 0 <= j < |s| && StartsMessage(s, j) && Grants(s[j]) && NoCFrom(s, j);
          assert j == |p|;
        }
        if Grants(ch) {
          assert StartsMessage(s, |p|) && NoCFrom(s, |p|);
        }
      } else {
        if OpenMessage(s) {
          var j :| 0 <= j < |s| && StartsMessage(s, j) && Grants(s[j]) && NoCFrom(s, j);
          assert j < |p| && StartsMessage(p, j) && Grants(p[j]) && NoCFrom(p, j);
        }
        if OpenMessage(p) {
          var j :| 0 <= j < |p| && StartsMessage(p, j) && Grants(p[j]) && NoCFrom(p, j);
          assert StartsMessage(s, j) && Grants(s[j]) && NoCFrom(s, j);
        }
      }
    }
  }

  /**
   * A single message `m` without its 'c', read from a locked board, leaves
   * the door open exactly when its first character grants; the 'c' that
   * follows locks it again.
   */
  lemma OneMessage(b: Board, m: seq<char>)
    requires Locked(b) && m != []
    requires forall i :: 0 <= i < |m| ==> m[i] != 'c'
    ensures !Locked(Serve(b, m).0) <==> Grants(m[0])
    ensures Serve(b, m).1
    ensures Locked(Serve(b, m + ['c']).0) && !Serve(b, m + ['c']).1
  {
    OpenOnlyWithinGrant(b, m);
    if OpenMessage(m) {
      var j :| 0 <= j < |m| && StartsMessage(m, j) && Grants(m[j]) && NoCFrom(m, j);
      assert j == 0;
    }
    if Grants(m[0]) {
      assert StartsMessage(m, 0) && NoCFrom(m, 0);
    }
    assert (m + ['c'])[..|m|] == m;
  }

  /**
   * After a 'c' the board is back at a message boundary: reading `s1`, which
   * ends in 'c', and then `s2` is the same as starting afresh on `s2` from
   * the board `s1` left.
   */
  lemma {:induction false} ServeSplit(b: Board, s1: seq<char>, s2: seq<char>)
    requires s1 != [] && s1[|s1| - 1] == 'c'
    ensures Serve(b, s1 + s2) == Serve(Serve(b, s1).0, s2)
    decreases |s2|
  {
    if s2 == [] {
      assert s1 + s2 == s1;
    } else {
      var s := s1 + s2;
      assert s[..|s| - 1] == s1 + s2[..|s2| - 1];
      ServeSplit(b, s1, s2[..|s2| - 1]);
      assert s[|s| - 1] == s2[|s2| - 1];
    }
  }

  /** The main loop changes no bit of `PORTB` but the relay's. */
  lemma {:induction false} ServeKeepsOtherBits(b: Board, s: seq<char>)
    ensures Serve(b, s).0.portB & !RelayPin == b.portB & !RelayPin
    decreases |s|
  {
    if s != [] {
      ServeKeepsOtherBits(b, s[..|s| - 1]);
    }
  }

  /** The Thunderbird's globals and its main loop. */
  class Controller {
    var portB: bv8
    var ddrB: bv8
    var ticks: nat
    var c: char
    var alerts: seq<Alert>

    function Snapshot(): Board
      reads this
    {
      Board(portB, ticks, alerts)
    }

    /** `main` up to its loop: `DDRB` and `PORTB` both `RELAY_PIN`, so the door starts locked. */
    constructor ()
      ensures ddrB == RelayPin && portB == RelayPin
      ensures ticks == 0 && c == 0 as char && alerts == []
      ensures Locked(Snapshot())
    {
      ddrB := RelayPin;
      portB := RelayPin;
      ticks := 0;
      c := 0 as char;
      alerts := [];
    }

    /** `lock()`. */
    method Lock()
      modifies this`portB, this`ticks
      ensures Snapshot() == AfterLock(old(Snapshot()))
    {
      ticks := 0;
      portB := portB | RelayPin;
    }

    /** `unlock()`, which ends by showing success. */
    method Unlock()
      modifies this`portB, this`alerts
      ensures Snapshot() == AfterUnlock(old(Snapshot()))
    {
      portB := portB & !RelayPin;
      alerts := alerts + [AuthSucceeded];
    }

    /** `auth_failed()`: the red LED and the low tone. */
    method ShowFailure()
      modifies this`alerts
      ensures alerts == old(alerts) + [AuthFailed]
    {
      alerts := alerts + [AuthFailed];
    }

    /**
     * The inner loop `while (c != 'c') { while (qempty()); c = getq(); }`,
     * entered after the character at `from - 1`. `b0` is the board before
     * the first character of `input`. When `input` runs out before a 'c' it
     * returns `blocked`, where the board would spin on the empty queue.
     */
    method SkipToC(input: seq<char>, from: nat, ghost b0: Board) returns (next: nat, blocked: bool)
      requires 0 < from <= |input| && c == input[from - 1]
      requires c != 'c' ==> Serve(b0, input[..from]) == (Snapshot(), true)
      requires c == 'c' ==> Serve(b0, input[..from]) == (AfterLock(Snapshot()), false)
      modifies this`c
      ensures from <= next <= |input| && c == input[next - 1]
      ensures blocked <==> c != 'c'
      ensures blocked ==> next == |input| && Serve(b0, input[..next]) == (Snapshot(), true)
      ensures !blocked ==> Serve(b0, input[..next]) == (AfterLock(Snapshot()), false)
    {
      next := from;
      while c != 'c'
        invariant from <= next <= |input|
        invariant c == input[next - 1]
        invariant c != 'c' ==> Serve(b0, input[..next]) == (Snapshot(), true)
        invariant c == 'c' ==> Serve(b0, input[..next]) == (AfterLock(Snapshot()), false)
        decreases |input| - next
      {
        if next == |input| {
          blocked := true;
          return;
        }
        c := input[next];
        next := next + 1;
        assert input[..next][..next - 1] == input[..next - 1];
      }
      blocked := false;
    }

    /**
     * One pass of the main loop's body for the message starting at `start`:
     * the `switch` on its first character, the wait for 'c', and `lock()`.
     * `b0` is the board before the first character of `input`; the result is
     * where the next message starts, or `blocked` when `input` ran out first.
     */
    method ReadMessage(input: seq<char>, start: nat, ghost b0: Board) returns (next: nat, blocked: bool)
      requires start < |input|
      requires Serve(b0, input[..start]) == (Snapshot(), false)
      modifies this`portB, this`ticks, this`c, this`alerts
      ensures start < next <= |input| && c == input[next - 1]
      ensures Serve(b0, input[..next]) == (Snapshot(), blocked)
      ensures blocked ==> next == |input|
    {
      ghost var before := Snapshot();
      c := input[start];
      if c == '0' {
        Lock();
        ShowFailure();
      } else if c == '1' || c == '2' {
        Unlock();
      }
      assert input[..start + 1][..start] == input[..start];
      assert Snapshot() == Dispatch(before, c);
      next, blocked := SkipToC(input, start + 1, b0);
      if !blocked {
        Lock();
      }
    }

    /**
     * The main loop fed the characters `input` in order. The board keeps
     * no queue of its own beyond `input`; when `input` runs out while the
     * inner loop waits for a 'c', it returns `blocked` where the board would spin.
     */
    method Run(input: seq<char>) returns (blocked: bool)
      modifies this`portB, this`ticks, this`c, this`alerts
      ensures (Snapshot(), blocked) == Serve(old(Snapshot()), input)
      ensures c == if input == [] then old(c) else input[|input| - 1]
    {
      var pos := 0;
      blocked := false;
      assert input[..0] == [];
      while pos < |input| && !blocked
        invariant 0 <= pos <= |input|
        invariant c == if pos == 0 then old(c) else input[pos - 1]
        invariant Serve(old(Snapshot()), input[..pos]) == (Snapshot(), blocked)
        invariant blocked ==> pos == |input|
      {
        pos, blocked := ReadMessage(input, pos, old(Snapshot()));
      }
      assert input[..pos] == input;
    }
  }
}
