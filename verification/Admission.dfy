// The admission controller: a semaphore, a counter of admitted work and an
// event that is set while nothing is in flight. Models AdmissionController in
// src/llm_router/admission.py; waiting for a slot is one atomic step, taken
// when a slot is free or refused when the bounded wait runs out.
module Admission {
  datatype Slots = Slots(free: nat, inFlight: int, idle: bool)

  function Opened(maxConcurrency: nat): Slots {
    Slots(maxConcurrency, 0, true)
  }

  function Acquired(s: Slots): Slots
    requires s.free > 0
  {
    Slots(s.free - 1, s.inFlight + 1, false)
  }

  function Released(s: Slots): Slots {
    Slots(s.free + 1, s.inFlight - 1, s.idle || s.inFlight - 1 == 0)
  }

  // Every slot is either free or taken, and idle means that none is taken.
  predicate Conserved(s: Slots, maxConcurrency: nat) {
    && s.inFlight >= 0
    && s.free + s.inFlight == maxConcurrency
    && (s.idle <==> s.inFlight == 0)
  }

  class AdmissionController {
    var free: nat
    var inFlight: int
    var idle: bool

    function Value(): Slots
      reads this
    {
      Slots(free, inFlight, idle)
    }

    constructor (maxConcurrency: nat)
      ensures Value() == Opened(maxConcurrency)
    {
      free, inFlight, idle := maxConcurrency, 0, true;
    }

    // False where the source raises AdmissionRejectedError.
    method Acquire() returns (admitted: bool)
      modifies this
      ensures admitted <==> old(free) > 0
      ensures Value() == if admitted then Acquired(old(Value())) else old(Value())
    {
      if free == 0 {
        return false;
      }
      free := free - 1;
      inFlight := inFlight + 1;
      idle := false;
      admitted := true;
    }

    method Release()
      modifies this
      ensures Value() == Released(old(Value()))
    {
      inFlight := inFlight - 1;
      if inFlight == 0 {
        idle := true;
      }
      free := free + 1;
    }
  }
}
