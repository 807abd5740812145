/** How long a lease lasts: a key that is renewed in time does not expire, and one that is not does
    when its lease is over. */
module ActorLease {
  import opened Text
  import opened ActorLock

  function Sent(w: World, e: Event): Command
    requires Enabled(w, e) && e.Carried?
  {
    w.commands[w.wire[e.copy]]
  }

  /** A SET NX takes the free key, or a renewal finds its own token there. */
  predicate Leases(w: World, e: Event)
    requires Enabled(w, e)
  {
    e.Carried? &&
    match Sent(w, e).kind
    case Acquire => w.key.None?
    case Renew => w.key.Some? && w.key.value.token == Sent(w, e).token
    case Release => false
  }

  /** Since this moment the key, if there is one, has been leased. */
  predicate LeasedSince(w: World, since: nat) {
    w.timeout > 0 && (w.key.Some? ==> w.key.value.deadline == Some(since + w.timeout))
  }

  function Since(w: World, e: Event, since: nat): nat
    requires Enabled(w, e)
  {
    if Leases(w, e) then w.now else since
  }

  lemma LeaseStep(w: World, e: Event, since: nat)
    requires Enabled(w, e) && LeasedSince(w, since)
    ensures LeasedSince(Step(w, e), Since(w, e, since)) && Step(w, e).timeout == w.timeout
  {
  }

  /** A lease runs out exactly when its time is over. */
  lemma ExpiresIff(w: World, since: nat)
    requires LeasedSince(w, since) && w.key.Some?
    ensures Enabled(w, Expired) <==> since + w.timeout <= w.now
  {
  }

  /** Time never goes on to the end of a lease: the key is taken or renewed before. */
  predicate RenewedInTime(w: World, events: seq<Event>, since: nat)
    requires Possible(w, events)
    decreases |events|
  {
    w.now < since + w.timeout &&
    (|events| == 0 || RenewedInTime(Step(w, events[0]), events[1..], Since(w, events[0], since)))
  }

  /** The moment of the last lease after a run. */
  function SinceAfter(w: World, events: seq<Event>, since: nat): nat
    requires Possible(w, events)
    decreases |events|
  {
    if |events| == 0 then since else SinceAfter(Step(w, events[0]), events[1..], Since(w, events[0], since))
  }

  /** While the key's renewals are carried out less than the lease apart, the key never expires. */
  lemma {:induction false} RenewedNeverExpires(w: World, events: seq<Event>, since: nat)
    requires Possible(w, events) && LeasedSince(w, since) && RenewedInTime(w, events, since)
    ensures Expired !in events && !Enabled(Run(w, events), Expired)
    decreases |events|
  {
    if |events| > 0 {
      LeaseStep(w, events[0], since);
      RenewedNeverExpires(Step(w, events[0]), events[1..], Since(w, events[0], since));
      assert events == [events[0]] + events[1..];
    }
  }

  /** No release of the process is carried out, and nobody breaks its key. */
  predicate LeftAlone(w: World, events: seq<Event>, i: nat)
    requires Possible(w, events)
    decreases |events|
  {
    |events| == 0 ||
    (!events[0].Broken? && !ReleasesItself(w, events[0], i) && LeftAlone(Step(w, events[0]), events[1..], i))
  }

  /** So a process that owns the key, renews it in time and does not release it owns it still. */
  lemma {:induction false} RenewedStaysOwner(w: World, events: seq<Event>, since: nat, i: nat)
    requires Inv(w) && Owner(w) == Some(i) && Possible(w, events) && LeasedSince(w, since)
    requires RenewedInTime(w, events, since) && LeftAlone(w, events, i)
    ensures Owner(Run(w, events)) == Some(i)
    decreases |events|
  {
    if |events| > 0 {
      LeaseStep(w, events[0], since);
      StepKeeps(w, events[0]);
      assert events[0].Carried? ==> CommandFine(Sent(w, events[0]), w.minted);
      RenewedStaysOwner(Step(w, events[0]), events[1..], Since(w, events[0], since), i);
    }
  }

  lemma {:induction false} LeasedAfter(w: World, events: seq<Event>, since: nat)
    requires Possible(w, events) && LeasedSince(w, since)
    ensures LeasedSince(Run(w, events), SinceAfter(w, events, since))
    decreases |events|
  {
    if |events| > 0 {
      LeaseStep(w, events[0], since);
      LeasedAfter(Step(w, events[0]), events[1..], Since(w, events[0], since));
    }
  }

  /** Over every run with a lease, the key can expire if and only if the lease since it was last
      taken or renewed is over. */
  lemma {:induction false} ExpiresWhenLeaseIsOver(start: World, events: seq<Event>, w: World)
    requires Reached(start, events, w) && start.timeout > 0 && w.key.Some?
    ensures Enabled(w, Expired) <==> SinceAfter(start, events, 0) + start.timeout <= w.now
  {
    LeasedAfter(start, events, 0);
    TimeoutStays(start, events);
    ExpiresIff(w, SinceAfter(start, events, 0));
  }

  lemma {:induction false} TimeoutStays(w: World, events: seq<Event>)
    requires Possible(w, events)
    ensures Run(w, events).timeout == w.timeout
    decreases |events|
  {
    if |events| > 0 {
      TimeoutStays(Step(w, events[0]), events[1..]);
    }
  }

  /** Without a timeout no key ever expires. */
  lemma {:induction false} NoTimeoutNeverExpires(w: World, events: seq<Event>)
    requires Possible(w, events) && w.timeout <= 0 && (w.key.Some? ==> w.key.value.deadline.None?)
    ensures !Enabled(Run(w, events), Expired)
    decreases |events|
  {
    if |events| > 0 {
      NoTimeoutNeverExpires(Step(w, events[0]), events[1..]);
    }
  }
}
