/** `CircuitBreaker`: read the record, change the copy, write it back; two commands with others in between. */
module CircuitBreaker {
  import opened SharedStore
  import opened Breaker

  function ProviderKey(provider: string): string {
    "vanta:llm:circuit:provider:" + provider
  }

  function CredKey(cred: string): string {
    "vanta:llm:circuit:cred:" + cred
  }

  /** A provider's breaker is never a credential's, and each has its own. */
  lemma KeysAreApart(a: string, b: string)
    ensures ProviderKey(a) != CredKey(b)
    ensures ProviderKey(a) == ProviderKey(b) ==> a == b
    ensures CredKey(a) == CredKey(b) ==> a == b
  {
    assert ProviderKey(a)[18] == 'p' && CredKey(b)[18] == 'c';
    assert ProviderKey(a)[27..] == a && ProviderKey(b)[27..] == b;
    assert CredKey(a)[23..] == a && CredKey(b)[23..] == b;
  }

  class CircuitBreaker {
    const store: Store

    constructor (store: Store)
      ensures this.store == store
    {
      this.store := store;
    }

    /** Open exactly if the record read is OPEN and its period not over; then nothing is written. */
    method IsOpen(key: string) returns (open: bool)
      requires store.Valid() && !store.awaiting
      modifies store`s, store`circuits, store`schedule, store`traffic, store`latest, store`journal, store`awaiting
      ensures store.Valid() && !store.awaiting && store.Follows(old(store.s), store.s)
      ensures store.journal == old(store.journal) + [Checked(key, !open)]
    {
      open := false;
      var state := store.ReadCircuit(key, Check);
      if state.state == Open {
        if store.s.now - state.openedAt >= store.tuning.halfOpenAfter {
          state := state.(state := HalfOpen);
          state := state.(probes := 0);
          store.WriteCircuit(key, state);
        } else {
          open := true;
        }
      }
    }

    /** Writes back what a success makes of the record read, whatever the record has become by then. */
    method RecordSuccess(key: string)
      requires store.Valid() && !store.awaiting
      modifies store`s, store`circuits, store`schedule, store`traffic, store`latest, store`journal, store`awaiting
      ensures store.Valid() && !store.awaiting && store.Follows(old(store.s), store.s)
      ensures store.journal == old(store.journal) + [Succeeded(key)]
    {
      var state := store.ReadCircuit(key, Success);
      if state.state == HalfOpen {
        state := state.(probes := state.probes + 1);
        if state.probes >= store.tuning.successes {
          state := FRESH;
        }
      } else if state.state == Closed {
        state := state.(failures := 0);
      }
      store.WriteCircuit(key, state);
    }

    /** Writes back what a failure makes of the record read. */
    method RecordFailure(key: string, force: bool)
      requires store.Valid() && !store.awaiting
      modifies store`s, store`circuits, store`schedule, store`traffic, store`latest, store`journal, store`awaiting
      ensures store.Valid() && !store.awaiting && store.Follows(old(store.s), store.s)
      ensures store.journal == old(store.journal) + [Failed(key, force)]
    {
      var state := store.ReadCircuit(key, Failure(force));
      state := state.(failures := state.failures + 1);
      var shouldOpen := force || state.failures >= store.tuning.threshold;
      if shouldOpen && state.state != Open {
        state := state.(state := Open);
        state := state.(openedAt := store.s.now);
      } else if state.state == HalfOpen {
        state := state.(state := Open);
        state := state.(openedAt := store.s.now);
      }
      store.WriteCircuit(key, state);
    }
  }
}
