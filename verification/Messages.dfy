/**
 Messages as the caller means them. The router knows a call only by its size, so
 this module says when the calls it takes for retries are the caller's retries.
 */
module Messages {
  import opened Reals
  import opened Codes
  import opened Router

  /** A call, and whether the caller means it as another attempt at the message it tried last. */
  datatype Attempt = Attempt(call: Call, again: bool)

  function Calls(attempts: seq<Attempt>): (calls: seq<Call>)
    ensures |calls| == |attempts|
  {
    if attempts == [] then []
    else Calls(attempts[..|attempts| - 1]) + [attempts[|attempts| - 1].call]
  }

  /** The messages that the caller means, with the situation of their first attempts. */
  function Meant(st: Sender, attempts: seq<Attempt>): seq<Message> {
    if attempts == [] then []
    else
      var first, a := attempts[..|attempts| - 1], attempts[|attempts| - 1];
      if a.call.size == 0 || a.again then Meant(st, first)
      else
        Meant(st, first) +
        [Message(a.call.size, a.call.o.situation.(mapped := After(st, Calls(first)).mapped))]
  }

  /** The size of the message that the last call left unfinished, or 0. */
  function LeftOver(st: Sender, calls: seq<Call>): nat {
    if calls == [] then 0
    else
      var first, call := calls[..|calls| - 1], calls[|calls| - 1];
      if call.size == 0 then LeftOver(st, first)
      else if Unfinished(After(st, first), call.size, call.o) then call.size
      else 0
  }

  /**
   A caller can tell by the result: while the socket does not answer EAGAIN itself
   and handshakes fail by timing out, unfinished means EAGAIN.
   */
  lemma UnfinishedIsEagain(st: Sender, size: nat, o: Outcome)
    requires size > 0 && o.uds != EAGAIN && o.negotiate in {OK, ETIMEDOUT}
    ensures Unfinished(st, size, o) <==> SendResult(st, size, o).rc == EAGAIN
  {
  }

  /** What a call leaves pending, for a next call of any size. */
  lemma PendingIs(st: Sender, size: nat, o: Outcome, next: nat)
    requires size > 0 && Coherent(st)
    ensures Resumes(SendResult(st, size, o).st, next) <==> next == size && Unfinished(st, size, o)
  {
    CallCoherent(st, size, o);
  }

  /** The router takes a call for a retry iff the last call left a message of that size unfinished. */
  lemma {:induction false} TakenForRetry(alpha: real, capacity: nat, calls: seq<Call>, size: nat)
    requires size > 0
    ensures Resumes(After(Fresh(alpha, capacity), calls), size) <==> size == LeftOver(Fresh(alpha, capacity), calls)
  {
    if calls != [] {
      var first, call := calls[..|calls| - 1], calls[|calls| - 1];
      RunCoherent(alpha, capacity, first);
      if call.size == 0 {
        TakenForRetry(alpha, capacity, first, size);
      } else {
        PendingIs(After(Fresh(alpha, capacity), first), call.size, call.o, size);
      }
    }
  }

  /**
   The caller tries a message again only if the last attempt left it unfinished,
   and starts no message while another of its size is left unfinished.
   */
  predicate Clean(st: Sender, attempts: seq<Attempt>) {
    attempts != [] ==>
      var first, a := attempts[..|attempts| - 1], attempts[|attempts| - 1];
      && Clean(st, first)
      && (a.call.size > 0 ==> (a.again <==> LeftOver(st, Calls(first)) == a.call.size))
  }

  /** After every prefix of the attempts the router has seen the messages that the caller means. */
  predicate SeenAsMeant(st: Sender, attempts: seq<Attempt>) {
    && (attempts != [] ==> SeenAsMeant(st, attempts[..|attempts| - 1]))
    && Logical(st, Calls(attempts)) == Meant(st, attempts)
  }

  /** The router sees the caller's messages, after every call, iff the caller keeps to that. */
  lemma {:induction false} SeenAsMeantIff(alpha: real, capacity: nat, attempts: seq<Attempt>)
    ensures SeenAsMeant(Fresh(alpha, capacity), attempts) <==> Clean(Fresh(alpha, capacity), attempts)
  {
    if attempts != [] {
      var first, a := attempts[..|attempts| - 1], attempts[|attempts| - 1];
      SeenAsMeantIff(alpha, capacity, first);
      assert Calls(attempts)[..|first|] == Calls(first);
      if a.call.size > 0 {
        TakenForRetry(alpha, capacity, Calls(first), a.call.size);
      }
    }
  }

  /**
   For such a caller, average and sticky route are a fold over its messages
   alone, each counted once however often it was tried, and the switch counter
   is the number of adjacent changes of decision.
   */
  lemma MessagesCountOnce(alpha: real, capacity: nat, attempts: seq<Attempt>)
    requires Clean(Fresh(alpha, capacity), attempts)
    ensures var st := After(Fresh(alpha, capacity), Calls(attempts));
            var t := Fold(alpha, Meant(Fresh(alpha, capacity), attempts));
            st.ewma == t.ewma && st.lastRoute == t.route && st.switches == AdjacentChanges(t.decided)
  {
    SeenAsMeantIff(alpha, capacity, attempts);
    RetryTransparency(alpha, capacity, Calls(attempts));
  }

  lemma SameAverage(alpha: real, e: real, x: real)
    ensures Ewma(alpha, e, x) == e <==> alpha == 0.0 || x == e
  {
    assert Ewma(alpha, e, x) - e == alpha * (x - e);
  }

  /** One more attempt, as the caller means it. */
  lemma MeantStep(alpha: real, st: Sender, attempts: seq<Attempt>)
    requires attempts != []
    ensures var first, a := attempts[..|attempts| - 1], attempts[|attempts| - 1];
            Fold(alpha, Meant(st, attempts)).ewma ==
            (if a.call.size == 0 || a.again then Fold(alpha, Meant(st, first)).ewma
             else Ewma(alpha, Fold(alpha, Meant(st, first)).ewma, a.call.size as real))
  {
    var first, a := attempts[..|attempts| - 1], attempts[|attempts| - 1];
    var m := Message(a.call.size, a.call.o.situation.(mapped := After(st, Calls(first)).mapped));
    FoldAppend(alpha, Meant(st, first), m);
  }

  /** One more attempt, as the router takes it. */
  lemma TakenStep(alpha: real, capacity: nat, attempts: seq<Attempt>)
    requires attempts != [] && attempts[|attempts| - 1].call.size > 0
    ensures var st, first := Fresh(alpha, capacity), attempts[..|attempts| - 1];
            var size := attempts[|attempts| - 1].call.size;
            var before := After(st, Calls(first)).ewma;
            After(st, Calls(attempts)).ewma ==
            (if LeftOver(st, Calls(first)) == size then before else Ewma(alpha, before, size as real))
  {
    var st, first, call := Fresh(alpha, capacity), attempts[..|attempts| - 1], attempts[|attempts| - 1].call;
    RetryTransparency(alpha, capacity, Calls(first));
    TakenForRetry(alpha, capacity, Calls(first), call.size);
    assert Calls(attempts)[..|first|] == Calls(first);
    CallMoves(After(st, Calls(first)), call.size, call.o);
  }

  /** The first call that breaks the rule moves the average apart, unless the size equals the average. */
  lemma FirstMistake(alpha: real, capacity: nat, attempts: seq<Attempt>)
    requires attempts != [] && !Clean(Fresh(alpha, capacity), attempts)
    requires Clean(Fresh(alpha, capacity), attempts[..|attempts| - 1])
    ensures var st, first := Fresh(alpha, capacity), attempts[..|attempts| - 1];
            After(st, Calls(attempts)).ewma == Fold(alpha, Meant(st, attempts)).ewma <==>
              alpha == 0.0 || attempts[|attempts| - 1].call.size as real == After(st, Calls(first)).ewma
  {
    var st, first := Fresh(alpha, capacity), attempts[..|attempts| - 1];
    MessagesCountOnce(alpha, capacity, first);
    MeantStep(alpha, st, attempts);
    TakenStep(alpha, capacity, attempts);
    SameAverage(alpha, After(st, Calls(first)).ewma, attempts[|attempts| - 1].call.size as real);
  }

  /** A message given up on a full ring swallows the next new message of its size. */
  lemma AbandonedSizeSwallows(alpha: real, capacity: nat, size: nat, full: Outcome, o: Outcome)
    requires !FitsDatagram(size) && size + 1 <= capacity && full.negotiate == OK && full.push == EAGAIN
    ensures var attempts := [Attempt(Call(size, full), false), Attempt(Call(size, o), false)];
            var st := Fresh(alpha, capacity);
            && !Clean(st, attempts) && |Meant(st, attempts)| == 2 && |Logical(st, Calls(attempts))| == 1
  {
    var one := [Attempt(Call(size, full), false)];
    var two := [Attempt(Call(size, full), false), Attempt(Call(size, o), false)];
    var st := Fresh(alpha, capacity);
    assert two[..1] == one && one[..0] == [];
    assert Calls(one) == [Call(size, full)];
    assert Calls(two)[..1] == Calls(one) && Calls(one)[..0] == [];
    assert Unfinished(st, size, full);
    assert LeftOver(st, Calls(one)) == size;
    TakenForRetry(alpha, capacity, Calls(one), size);
    assert |Logical(st, Calls(one))| == 1;
    assert |Meant(st, one)| == 1;
  }
}
