/** A client whose session is created on first use, shared by concurrent calls (internal/powerscale/lazy.go). */
module LazyClients {
  import opened Wrappers

  // Created clients are told apart by number.
  type ClientId = nat

  // What one call sees of the lock-protected client: the client after it, and the client or error it got.
  function Obtain(inner: Option<ClientId>, creation: Result<ClientId, string>): (Option<ClientId>, Result<ClientId, string>) {
    if inner.Some? then (inner, Ok(inner.value))
    else (if creation.Ok? then Some(creation.value) else None, creation)
  }

  class LazyClient {
    var inner: Option<ClientId>
    ghost var attempts: nat
    ghost var failures: nat

    ghost predicate Valid()
      reads this
    {
      attempts == failures + if inner.Some? then 1 else 0
    }

    constructor ()
      ensures Valid() && inner == None && attempts == 0
    {
      inner, attempts, failures := None, 0, 0;
    }

    // Runs under the lock; `creation` is what creating the client now would yield.
    method Get(creation: Result<ClientId, string>) returns (r: Result<ClientId, string>)
      requires Valid()
      modifies this
      ensures Valid() && (inner, r) == Obtain(old(inner), creation)
      ensures old(inner).Some? ==> inner == old(inner) && r == Ok(old(inner).value)
      ensures old(inner).None? ==> r == creation && inner == if creation.Ok? then Some(creation.value) else None
      ensures attempts == old(attempts) + if old(inner).None? then 1 else 0
      ensures failures == old(failures) + if r.Err? then 1 else 0
    {
      if inner.Some? {
        return Ok(inner.value);
      }
      attempts := attempts + 1;
      if creation.Err? {
        failures := failures + 1;
        return Err(creation.error);
      }
      inner := Some(creation.value);
      return creation;
    }
  }

  // ---------------------------------------------------------------- concurrent calls

  // A call obtains the client under the lock, then asks it outside the lock.
  datatype Call<T> = Waiting | Holding(client: ClientId) | Failed(error: string) | Answered(answer: T)

  datatype State<T> = State(inner: Option<ClientId>, attempts: nat, failures: nat, calls: seq<Call<T>>)

  datatype Action = Get(call: nat, creation: Result<ClientId, string>) | Ask(call: nat)

  // `answers` is what client `c` answers to call `i`.
  ghost predicate Next<T(!new)>(answers: (ClientId, nat) -> T, s: State<T>, a: Action, t: State<T>) {
    && a.call < |s.calls|
    && match a
       case Get(i, creation) =>
         s.calls[i].Waiting? &&
         var (inner, r) := Obtain(s.inner, creation);
         t == State(inner, s.attempts + (if s.inner.None? then 1 else 0), s.failures + (if r.Err? then 1 else 0),
                    s.calls[i := if r.Ok? then Holding(r.value) else Failed(r.error)])
       case Ask(i) =>
         s.calls[i].Holding? && t == s.(calls := s.calls[i := Answered(answers(s.calls[i].client, i))])
  }

  ghost predicate IsRun<T(!new)>(answers: (ClientId, nat) -> T, states: seq<State<T>>, actions: seq<Action>) {
    && |states| == |actions| + 1
    && states[0].inner.None? && states[0].attempts == states[0].failures == 0
    && (forall i :: 0 <= i < |states[0].calls| ==> states[0].calls[i].Waiting?)
    && forall n :: 0 <= n < |actions| ==> Next(answers, states[n], actions[n], states[n + 1])
  }

  ghost predicate Inv<T(!new)>(answers: (ClientId, nat) -> T, s: State<T>) {
    && s.attempts == s.failures + (if s.inner.Some? then 1 else 0)
    && forall i :: 0 <= i < |s.calls| ==>
         match s.calls[i]
         case Holding(c) => s.inner == Some(c)
         case Answered(r) => s.inner.Some? && r == answers(s.inner.value, i)
         case _ => true
  }

  lemma {:induction false} RunKeepsInv<T(!new)>(answers: (ClientId, nat) -> T, states: seq<State<T>>, actions: seq<Action>, n: nat)
    requires IsRun(answers, states, actions) && n < |states|
    ensures Inv(answers, states[n])
  {
    if n > 0 {
      RunKeepsInv(answers, states, actions, n - 1);
      assert Next(answers, states[n - 1], actions[n - 1], states[n]);
    }
  }

  /** At most one creation ever succeeds: every attempt beyond the failed ones is the one that made the client. */
  lemma OneSuccessAtMost<T(!new)>(answers: (ClientId, nat) -> T, states: seq<State<T>>, actions: seq<Action>, n: nat)
    requires IsRun(answers, states, actions) && n < |states|
    ensures states[n].attempts == states[n].failures + (if states[n].inner.Some? then 1 else 0)
  {
    RunKeepsInv(answers, states, actions, n);
  }

  /** Once there is a client it stays, no call fails any more, and every answer is that client's. */
  lemma {:induction false} AfterTheFirstSuccess<T(!new)>(answers: (ClientId, nat) -> T, states: seq<State<T>>, actions: seq<Action>,
                                                       m: nat, n: nat, i: nat)
    requires IsRun(answers, states, actions) && m <= n < |states|
    requires states[m].inner.Some? && i < |states[m].calls| && !states[m].calls[i].Failed?
    ensures states[n].inner == states[m].inner && |states[n].calls| == |states[m].calls|
    ensures states[n].attempts == states[m].attempts && states[n].failures == states[m].failures
    ensures !states[n].calls[i].Failed?
    ensures states[n].calls[i].Answered? ==> states[n].calls[i].answer == answers(states[m].inner.value, i)
  {
    RunKeepsInv(answers, states, actions, n);
    if m < n {
      AfterTheFirstSuccess(answers, states, actions, m, n - 1, i);
      assert Next(answers, states[n - 1], actions[n - 1], states[n]);
    }
  }
}
