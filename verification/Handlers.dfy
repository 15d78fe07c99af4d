// The handlers of one completion as objects that change in place: the request
// up to its response, and the leased stream after it. Each method runs from one
// await to the next and is proved to be a step of the Lifecycle model.
module Handlers {
  import opened Admission
  import opened Lifecycle
  import opened Models
  import opened Wrappers
  import Registry
  import Routing

  /** What a live stream holds until it ends: one slot, whoever closes it first. */
  class StreamLease {
    const admission: AdmissionController
    var closed: bool

    constructor (admission: AdmissionController)
      ensures this.admission == admission && !closed
    {
      this.admission := admission;
      closed := false;
    }

    method Close()
      modifies this, admission
      ensures closed
      ensures admission.Value() == if old(closed) then old(admission.Value()) else Released(old(admission.Value()))
    {
      if closed {
        return;
      }
      closed := true;
      admission.Release();
    }
  }

  // What a step of a stream does to the slots.
  function EffectOf(before: Stream, after: Stream): Effect {
    if after.closed && !before.closed then Give else Keep
  }

  /** A streaming response and its body generator, which share the lease. */
  class LeasedStream {
    const lease: StreamLease
    const route: Route
    const first: Option<string>
    var position: Position
    var live: bool
    var collected: seq<string>
    var sent: seq<Sent>
    var ended: bool

    function Value(): Stream
      reads this, lease
    {
      Stream(route, first, position, live, collected, sent, lease.closed, ended)
    }

    constructor (admission: AdmissionController, route: Route, first: Option<string>)
      ensures Value() == Opening(route, first)
      ensures lease.admission == admission && fresh(lease)
    {
      this.lease := new StreamLease(admission);
      this.route, this.first := route, first;
      position, live, collected, sent, ended := NotStarted, true, [], [], false;
    }

    method Yield(body: Body)
      modifies this`sent
      ensures sent == old(sent) + [Chunk(route.decision.profile.id, body)]
    {
      sent := sent + [Chunk(route.decision.profile.id, body)];
    }

    /** The generator's own finally; it never runs if the generator was never started. */
    method CloseGenerator()
      modifies this`live, lease, lease.admission
      ensures Value() == GeneratorOver(old(Value()))
      ensures lease.admission.Value() == Applied(old(lease.admission.Value()), EffectOf(old(Value()), Value()))
    {
      live := false;
      if position != NotStarted {
        lease.Close();
      }
    }

    method Resume(drawn: Drawn)
      requires live
      modifies this, lease, lease.admission
      ensures Value() == Resumed(old(Value()), drawn)
      ensures lease.admission.Value() == Applied(old(lease.admission.Value()), EffectOf(old(Value()), Value()))
    {
      match position {
        case NotStarted =>
          Yield(Role);
          position := AfterRole;
        case AfterRole =>
          if first.Some? {
            collected := [first.value];
            Yield(Content(first.value));
            position := AfterContent;
          } else {
            Yield(Stop);
            position := AfterStop;
          }
        case AfterContent =>
          match drawn {
            case Delta(text) =>
              collected := collected + [text];
              Yield(Content(text));
            case Exhausted =>
              Yield(Stop);
              position := AfterStop;
            case Raises(_) =>
              CloseGenerator();
          }
        case AfterStop =>
          sent := sent + [DoneMark];
          position := AfterDone;
        case AfterDone =>
          CloseGenerator();
      }
    }

    /** The response's finally, which runs even if the generator never did. */
    method EndResponse()
      modifies this`ended, lease, lease.admission
      ensures Value() == ResponseOver(old(Value()))
      ensures lease.admission.Value() == Applied(old(lease.admission.Value()), EffectOf(old(Value()), Value()))
    {
      ended := true;
      lease.Close();
    }
  }

  /** One request from its wait for a slot to its response. */
  class Completion {
    const cfg: Config
    const admission: AdmissionController
    const payload: ChatRequest
    const declared: Privacy
    const tenant: Option<Registry.Tenant>
    var phase: Phase
    var dispatches: seq<Dispatch>
    var heard: seq<Verdict>
    var writes: seq<Write>
    var taken: nat
    var given: nat

    function Value(): Request
      reads this
    {
      Request(payload, declared, tenant, phase, dispatches, heard, writes, taken, given)
    }

    constructor (cfg: Config, admission: AdmissionController, arrival: Arrival)
      ensures this.cfg == cfg && this.admission == admission
      ensures Value() == Arrived(cfg, arrival)
    {
      this.cfg, this.admission := cfg, admission;
      payload := Effective(arrival.payload, arrival.tenant);
      declared, tenant := arrival.payload.routing.privacy, arrival.tenant;
      dispatches, heard, writes, taken, given := [], [], [], 0, 0;
      phase := Finished(Rejected);
      if arrival.charged {
        if arrival.hit {
          phase := Finished(FromCache);
        } else {
          var decision := Routing.Select(
            cfg.router, Effective(arrival.payload, arrival.tenant),
            TermsOf(cfg, arrival.tenant, arrival.cachedTask, None), arrival.reading);
          if decision.Some? {
            phase := Queued(Route(decision.value, arrival.canary));
          }
        }
      }
    }

    method Call(route: Route, retried: bool)
      modifies this`phase, this`dispatches
      ensures Value() == Called(cfg, old(Value()), route, retried)
    {
      var target := Routing.TargetOf(payload, route.decision.profile, cfg.externalConfigured);
      dispatches := dispatches + [Dispatch(route, target)];
      phase := Calling(route, retried);
    }

    method Tell(ok: bool)
      modifies this`heard
      ensures Value() == Told(old(Value()), ok)
    {
      heard := heard + [Verdict(|dispatches|, ok)];
    }

    method GiveBack()
      modifies this`given, admission
      ensures given == old(given) + 1
      ensures admission.Value() == Released(old(admission.Value()))
    {
      given := given + 1;
      admission.Release();
    }

    /** The end of the bounded wait: a slot and the first call, or a refusal. */
    method Acquire() returns (admitted: bool)
      requires phase.Queued?
      modifies this, admission
      ensures admitted <==> old(admission.free) > 0
      ensures var m := Local(cfg, old(Value()), if admitted then Admit(0) else GiveUp(0), old(admission.free) > 0);
        && Value() == Counted(m)
        && admission.Value() == Applied(old(admission.Value()), m.effect)
    {
      admitted := admission.Acquire();
      if admitted {
        taken := taken + 1;
        Call(phase.route, false);
      } else {
        phase := Finished(Rejected);
      }
    }

    /** A buffered answer, or the first delta of a stream, or a failure that may fall back. */
    method OnAnswer(outcome: Outcome, reading: Routing.Reading, canary: bool) returns (response: LeasedStream?)
      requires phase.Calling?
      requires payload.stream || outcome != Produced(None)
      modifies this, admission
      ensures var m := AfterCall(cfg, old(Value()), outcome, reading, canary);
        && Value() == Counted(m)
        && admission.Value() == Applied(old(admission.Value()), m.effect)
      ensures response != null <==> phase.Streaming?
      ensures response != null ==> response.lease.admission == admission && response.Value() == phase.stream
    {
      response := null;
      var route := phase.route;
      var seen := OutcomeAt(Routing.TargetOf(payload, route.decision.profile, cfg.externalConfigured), outcome);
      if seen.Produced? {
        if payload.stream {
          response := new LeasedStream(admission, route, seen.delta);
          phase := Streaming(Opening(route, seen.delta));
        } else {
          phase := Replied(route, seen.delta.value);
          GiveBack();
        }
        return;
      }
      if seen.Unavailable? && !phase.retried {
        Tell(false);
        var fallback := Fallback(cfg, Value(), route.decision, reading);
        if fallback.Some? {
          Call(Route(fallback.value, canary), true);
          return;
        }
      }
      phase := Finished(Failed);
      GiveBack();
    }

    /** What follows a buffered answer, once its slot is back: the caches, then the body. */
    method Deliver(kept: nat)
      requires phase.Replied?
      modifies this
      ensures Value() == AfterDelivery(cfg, old(Value()), kept)
    {
      var text := phase.text;
      var all := CacheWrites(cfg, payload, phase.route, text);
      Tell(true);
      writes := Kept(all, kept);
      phase := Finished(if kept < |all| then Lost(text) else Served(text));
    }
  }
}
