/** The debounced health automaton of the shared-memory transport. */
module Health {
  datatype Condition = UNAVAILABLE | HEALTHY | DEGRADED | BLOCKED | RECOVERING

  /** The counters are 32-bit unsigned words. */
  const WORD: nat := 0x1_0000_0000

  function Inc(x: nat): (y: nat)
    ensures y < WORD && y <= x + 1
    ensures x < WORD - 1 ==> y == x + 1
  {
    (x + 1) % WORD
  }

  datatype Health = Health(state: Condition, bad: nat, good: nat, transitions: nat, debounce: nat)

  /** What the producer sees before a send: bytes in the ring and the two rate estimates. */
  datatype Sample = Sample(occ: nat, cap: nat, drainValid: bool, arrival: real, drain: real) {
    predicate Full() { occ * 100 >= 95 * cap }

    predicate High() { occ * 100 >= 80 * cap }

    predicate Deficit() { occ > 0 && drainValid && arrival > 0.0 && drain < 0.5 * arrival }

    predicate Bad() { High() || Deficit() }

    /** At most a fifth full, and drained fast enough. */
    predicate Good() { cap > 0 && !Bad() && occ * 100 <= 20 * cap }
  }

  // ---- Reference: streaks first, then the state they lead to ----

  /** The bad and good streaks after a sample, before any change of state. */
  function Streaks(h: Health, s: Sample): (int, int) {
    if s.cap == 0 then (h.bad, h.good)
    else if s.Full() then (Inc(h.bad), 0)
    else if s.Bad() then (if h.state == BLOCKED && !s.High() then h.bad else Inc(h.bad), 0)
    else if s.Good() then (0, if h.state in {UNAVAILABLE, HEALTHY} then h.good else Inc(h.good))
    else (h.bad, h.good)
  }

  /** The state that a sample calls for. */
  function Wanted(h: Health, s: Sample): Condition {
    var (bad, good) := Streaks(h, s);
    if s.cap == 0 then h.state
    else if s.Full() then
      if bad >= h.debounce || h.state == DEGRADED then BLOCKED else h.state
    else if s.Bad() then
      if bad >= h.debounce && (h.state == BLOCKED ==> s.High()) then DEGRADED else h.state
    else if s.Good() then
      if h.state == UNAVAILABLE then HEALTHY
      else if h.state == HEALTHY || good < h.debounce then h.state
      else if h.state == BLOCKED then RECOVERING
      else HEALTHY
    else h.state
  }

  /** A change of state clears both streaks and counts as a transition. */
  function Observed(h: Health, s: Sample): Health {
    var (bad, good) := Streaks(h, s);
    var want := Wanted(h, s);
    if want == h.state then h.(bad := bad, good := good)
    else Health(want, 0, 0, Inc(h.transitions), h.debounce)
  }

  /** A monitor before its first sample; the default debounce period is 8. */
  function Initial(d: nat): Health {
    Health(UNAVAILABLE, 0, 0, 0, if d != 0 then d else 8)
  }

  // ---- The monitor itself ----

  class Monitor {
    var state: Condition
    var badStreak: nat
    var goodStreak: nat
    var transitions: nat
    var debounce: nat

    function Value(): Health
      reads this
    {
      Health(state, badStreak, goodStreak, transitions, debounce)
    }

    constructor (d: nat)
      ensures Value() == Initial(d)
    {
      state, badStreak, goodStreak, transitions := UNAVAILABLE, 0, 0, 0;
      debounce := if d != 0 then d else 8;
    }

    method SetState(s: Condition) returns (changed: bool)
      modifies this
      ensures changed <==> s != old(state)
      ensures Value() == if changed then Health(s, 0, 0, Inc(old(transitions)), old(debounce)) else old(Value())
    {
      if state != s {
        state := s;
        transitions := Inc(transitions);
        badStreak, goodStreak := 0, 0;
        return true;
      }
      return false;
    }

    method UpdateShm(s: Sample) returns (changed: bool)
      modifies this
      ensures Value() == Observed(old(Value()), s)
      ensures changed <==> state != old(state)
    {
      if s.cap == 0 { return false; }
      if s.occ * 100 >= 95 * s.cap {
        goodStreak := 0;
        badStreak := Inc(badStreak);
        if badStreak >= debounce || state == DEGRADED {
          changed := SetState(BLOCKED);
          return;
        }
      } else if s.occ * 100 >= 80 * s.cap
                || (s.occ > 0 && s.drainValid && s.arrival > 0.0 && s.drain < 0.5 * s.arrival) {
        goodStreak := 0;
        if state == BLOCKED {
          if s.occ * 100 >= 80 * s.cap {
            badStreak := Inc(badStreak);
            if badStreak >= debounce {
              changed := SetState(DEGRADED);
              return;
            }
          }
        } else {
          badStreak := Inc(badStreak);
          if badStreak >= debounce {
            changed := SetState(DEGRADED);
            return;
          }
        }
      } else if s.occ * 100 <= 20 * s.cap {
        badStreak := 0;
        if state == UNAVAILABLE {
          changed := SetState(HEALTHY);
          return;
        } else if state != HEALTHY {
          goodStreak := Inc(goodStreak);
          if goodStreak >= debounce {
            changed := SetState(if state == BLOCKED then RECOVERING else HEALTHY);
            return;
          }
        }
      }
      return false;
    }
  }
}
