/**
  What the clients of the warm-up manager hear: every event of the kind they asked for, and of fetches those that enter
  a new line.
 */
module WarmupClients {
  import opened Warmup
  import opened LineFilter

  /** The calls that clients have got, and the last line of each registration for fetches. */
  datatype Outcome = Outcome(calls: seq<Call>, lines: seq<nat>)

  function Unused(s: Setup): (o: Outcome)
    ensures o.calls == [] && |o.lines| == |s.fetchClients| && forall r :: 0 <= r < |o.lines| ==> o.lines[r] == 0
  {
    Outcome([], seq(|s.fetchClients|, r => 0))
  }

  predicate Registered(s: Setup, o: Outcome, r: nat)
  {
    r < |s.fetchClients| && r < |o.lines| && s.fetchClients[r].lineBytes > 0
  }

  /** The call of one entry: a client directly, or a registration that compares lines. */
  function PassOne(s: Setup, o: Outcome, c: Call): Outcome
  {
    if !c.event.IFetch? then o.(calls := o.calls + [c])
    else if !Registered(s, o, c.callback) then o
    else
      var entry, line := s.fetchClients[c.callback], Line(c.event.va, s.fetchClients[c.callback].lineBytes);
      if line == o.lines[c.callback] then o
      else Outcome(o.calls + [Call(entry.client, c.event)], o.lines[c.callback := line])
  }

  function PassTo(s: Setup, o: Outcome, calls: seq<Call>, n: nat): Outcome
    requires n <= |calls|
  {
    if n == 0 then o else PassOne(s, PassTo(s, o, calls, n - 1), calls[n - 1])
  }

  function PassAll(s: Setup, o: Outcome, calls: seq<Call>): Outcome
  {
    PassTo(s, o, calls, |calls|)
  }

  lemma {:induction false} PassToConcat(s: Setup, o: Outcome, p: seq<Call>, q: seq<Call>, n: nat)
    requires n <= |p| + |q|
    ensures PassTo(s, o, p + q, n) == if n <= |p| then PassTo(s, o, p, n) else PassTo(s, PassAll(s, o, p), q, n - |p|)
  {
    if n > 0 {
      PassToConcat(s, o, p, q, n - 1);
    }
  }

  lemma PassConcat(s: Setup, o: Outcome, p: seq<Call>, q: seq<Call>)
    ensures PassAll(s, o, p + q) == PassAll(s, PassAll(s, o, p), q)
  {
    PassToConcat(s, o, p, q, |p| + |q|);
  }

  /** All that a sequence of events leads to, from the registrations on. */
  function OutcomeOf(s: Setup, events: seq<Event>): Outcome
  {
    PassAll(s, Unused(s), Deliver(s, events))
  }

  function ClientCalls(s: Setup, events: seq<Event>): seq<Call>
  {
    OutcomeOf(s, events).calls
  }

  lemma OutcomeOfOne(s: Setup, earlier: seq<Event>, e: Event)
    ensures OutcomeOf(s, earlier + [e]) == PassAll(s, OutcomeOf(s, earlier), CallEach(Receivers(s, e), e))
  {
    DeliverOne(s, earlier, e);
    PassConcat(s, Unused(s), Deliver(s, earlier), CallEach(Receivers(s, e), e));
  }

  lemma HeardSnoc(k: Kind, c: nat, calls: seq<Call>, call: Call)
    ensures HeardBy(k, c, calls + [call])
         == if call.callback == c && KindOf(call.event) == k then HeardBy(k, c, calls) + [call.event]
            else HeardBy(k, c, calls)
  {
    HeardToConcat(k, c, calls, [call], |calls|);
  }

  // ----- kinds other than fetches

  lemma {:induction false} OthersPass(s: Setup, k: Kind, c: nat, calls: seq<Call>, n: nat)
    requires k != IFetches && n <= |calls|
    ensures HeardBy(k, c, PassTo(s, Unused(s), calls, n).calls) == HeardTo(k, c, calls, n)
  {
    if n > 0 {
      OthersPass(s, k, c, calls, n - 1);
      var o, call := PassTo(s, Unused(s), calls, n - 1), calls[n - 1];
      HeardSnoc(k, c, o.calls, call);
      if call.event.IFetch? && call.callback < |s.fetchClients| {
        HeardSnoc(k, c, o.calls, Call(s.fetchClients[call.callback].client, call.event));
      }
    }
  }

  /** A global client of a kind other than fetches hears every event of the kind, once and in order. */
  lemma GlobalClientHearsAll(s: Setup, c: nat, k: Kind, events: seq<Event>)
    requires GloballyFor(s, c, k) && k != IFetches
    ensures HeardBy(k, c, ClientCalls(s, events)) == Filter(OfKind(k), events)
  {
    OthersPass(s, k, c, Deliver(s, events), |Deliver(s, events)|);
    GlobalEntryHearsAll(s, c, k, events);
  }

  /** A client of one context hears the events of its kind from that context's queue, once and in queue order. */
  lemma ContextClientHearsItsQueue(s: Setup, c: nat, k: Kind, h: nat, queues: Queues)
    requires OnlyFor(s, c, k, h) && k != IFetches && h < |queues|
    ensures HeardBy(k, c, ClientCalls(s, Lifetime(queues))) == Filter(OfKind(k), QueueEvents(h, queues[h]))
  {
    var calls := Deliver(s, Lifetime(queues));
    OthersPass(s, k, c, calls, |calls|);
    OwnEntryHearsItsContext(s, c, k, h, Lifetime(queues));
    ProjectLifetime(k, h, queues);
  }

  // ----- fetches

  /** Call number n is a fetch that enters a line: the last call of its registration was on another. */
  predicate Enters(s: Setup, calls: seq<Call>, n: nat)
    requires n < |calls|
  {
    var r := calls[n].callback;
    calls[n].event.IFetch? && r < |s.fetchClients| && s.fetchClients[r].lineBytes > 0 &&
    var heard := HeardTo(IFetches, r, calls, n);
    Line(calls[n].event.va, s.fetchClients[r].lineBytes) != LineBefore(heard, |heard|, s.fetchClients[r].lineBytes)
  }

  /** Of the first n calls those that do. */
  function EnteringTo(s: Setup, calls: seq<Call>, n: nat): (kept: seq<Call>)
    requires n <= |calls|
    ensures forall i :: 0 <= i < |kept| ==> kept[i].event.IFetch? && kept[i].callback < |s.fetchClients|
  {
    if n == 0 then []
    else if Enters(s, calls, n - 1) then EnteringTo(s, calls, n - 1) + [calls[n - 1]]
    else EnteringTo(s, calls, n - 1)
  }

  /** The calls of registrations that a client hears of, in the order of delivery. */
  function EnteringCalls(s: Setup, calls: seq<Call>): seq<Call>
  {
    EnteringTo(s, calls, |calls|)
  }

  function ForClientTo(s: Setup, c: nat, calls: seq<Call>, n: nat): seq<Event>
    requires n <= |calls|
  {
    if n == 0 then []
    else if calls[n - 1].callback < |s.fetchClients| && s.fetchClients[calls[n - 1].callback].client == c then
      ForClientTo(s, c, calls, n - 1) + [calls[n - 1].event]
    else ForClientTo(s, c, calls, n - 1)
  }

  /** The events of the calls whose registration is one of the client's. */
  function ForClient(s: Setup, c: nat, calls: seq<Call>): seq<Event>
  {
    ForClientTo(s, c, calls, |calls|)
  }

  lemma {:induction false} ForClientPrefix(s: Setup, c: nat, calls: seq<Call>, call: Call, n: nat)
    requires n <= |calls|
    ensures ForClientTo(s, c, calls + [call], n) == ForClientTo(s, c, calls, n)
  {
    if n > 0 {
      ForClientPrefix(s, c, calls, call, n - 1);
    }
  }

  lemma ForClientSnoc(s: Setup, c: nat, calls: seq<Call>, call: Call)
    requires call.callback < |s.fetchClients|
    ensures ForClient(s, c, calls + [call])
         == if s.fetchClients[call.callback].client == c then ForClient(s, c, calls) + [call.event]
            else ForClient(s, c, calls)
  {
    ForClientPrefix(s, c, calls, call, |calls|);
  }

  /** A registration remembers the line of the last fetch it was called with. */
  lemma {:induction false} LineRemembered(s: Setup, r: nat, calls: seq<Call>, n: nat)
    requires r < |s.fetchClients| && s.fetchClients[r].lineBytes > 0 && n <= |calls|
    ensures var o, heard := PassTo(s, Unused(s), calls, n), HeardTo(IFetches, r, calls, n);
            |o.lines| == |s.fetchClients| && o.lines[r] == LineBefore(heard, |heard|, s.fetchClients[r].lineBytes)
    decreases n
  {
    if n > 0 {
      LineRemembered(s, r, calls, n - 1);
      LineAfter(s, r, PassTo(s, Unused(s), calls, n - 1), HeardTo(IFetches, r, calls, n - 1), calls[n - 1]);
    }
  }

  lemma LineAfter(s: Setup, r: nat, o: Outcome, heard: seq<Event>, call: Call)
    requires r < |s.fetchClients| == |o.lines| && s.fetchClients[r].lineBytes > 0
    requires o.lines[r] == LineBefore(heard, |heard|, s.fetchClients[r].lineBytes)
    ensures var o', heard' := PassOne(s, o, call),
                              if call.callback == r && call.event.IFetch? then heard + [call.event] else heard;
            |o'.lines| == |s.fetchClients| && o'.lines[r] == LineBefore(heard', |heard'|, s.fetchClients[r].lineBytes)
  {
    if call.event.IFetch? && call.callback == r {
      PassedOnNext(heard, call.event, s.fetchClients[r].lineBytes);
    }
  }

  lemma {:induction false} LinesKept(s: Setup, calls: seq<Call>, n: nat)
    requires n <= |calls|
    ensures |PassTo(s, Unused(s), calls, n).lines| == |s.fetchClients|
  {
    if n > 0 {
      LinesKept(s, calls, n - 1);
    }
  }

  /** The line that the registration remembers decides. */
  predicate NewLine(s: Setup, o: Outcome, call: Call)
  {
    && call.event.IFetch? && Registered(s, o, call.callback)
    && Line(call.event.va, s.fetchClients[call.callback].lineBytes) != o.lines[call.callback]
  }

  lemma PassHeard(s: Setup, c: nat, o: Outcome, call: Call)
    ensures var heard := HeardBy(IFetches, c, o.calls);
            var hears := NewLine(s, o, call) && s.fetchClients[call.callback].client == c;
            HeardBy(IFetches, c, PassOne(s, o, call).calls) == if hears then heard + [call.event] else heard
  {
    HeardSnoc(IFetches, c, o.calls, call);
    if call.callback < |s.fetchClients| {
      HeardSnoc(IFetches, c, o.calls, Call(s.fetchClients[call.callback].client, call.event));
    }
  }

  /** A fetch that enters a line is heard by the client behind its registration, and no other is heard. */
  lemma FetchPasses(s: Setup, c: nat, calls: seq<Call>, n: nat)
    requires 0 < n <= |calls|
    ensures var heard := HeardBy(IFetches, c, PassTo(s, Unused(s), calls, n - 1).calls);
            var hears := Enters(s, calls, n - 1) && s.fetchClients[calls[n - 1].callback].client == c;
            HeardBy(IFetches, c, PassTo(s, Unused(s), calls, n).calls)
              == if hears then heard + [calls[n - 1].event] else heard
  {
    var call := calls[n - 1];
    PassHeard(s, c, PassTo(s, Unused(s), calls, n - 1), call);
    LinesKept(s, calls, n - 1);
    if call.event.IFetch? && call.callback < |s.fetchClients| && s.fetchClients[call.callback].lineBytes > 0 {
      LineRemembered(s, call.callback, calls, n - 1);
    }
  }

  lemma NextFetch(s: Setup, c: nat, calls: seq<Call>, n: nat)
    requires 0 < n <= |calls|
    requires HeardBy(IFetches, c, PassTo(s, Unused(s), calls, n - 1).calls)
          == ForClient(s, c, EnteringTo(s, calls, n - 1))
    ensures HeardBy(IFetches, c, PassTo(s, Unused(s), calls, n).calls) == ForClient(s, c, EnteringTo(s, calls, n))
  {
    FetchPasses(s, c, calls, n);
    EnteringNext(s, c, calls, n);
  }

  lemma EnteringNext(s: Setup, c: nat, calls: seq<Call>, n: nat)
    requires 0 < n <= |calls|
    ensures var before := ForClient(s, c, EnteringTo(s, calls, n - 1));
            var hears := Enters(s, calls, n - 1) && s.fetchClients[calls[n - 1].callback].client == c;
            ForClient(s, c, EnteringTo(s, calls, n)) == if hears then before + [calls[n - 1].event] else before
  {
    if Enters(s, calls, n - 1) {
      ForClientSnoc(s, c, EnteringTo(s, calls, n - 1), calls[n - 1]);
    }
  }

  lemma {:induction false} FetchesPass(s: Setup, c: nat, calls: seq<Call>, n: nat)
    requires n <= |calls|
    ensures HeardBy(IFetches, c, PassTo(s, Unused(s), calls, n).calls) == ForClient(s, c, EnteringTo(s, calls, n))
    decreases n
  {
    if n > 0 {
      FetchesPass(s, c, calls, n - 1);
      NextFetch(s, c, calls, n);
    }
  }

  /**
    However many registrations a client has, it hears those delivered fetches that enter a line of one of them, in the
    order of delivery: the merge of what its registrations pass on.
   */
  lemma FetchClientHearsMerge(s: Setup, c: nat, events: seq<Event>)
    ensures HeardBy(IFetches, c, ClientCalls(s, events)) == ForClient(s, c, EnteringCalls(s, Deliver(s, events)))
  {
    FetchesPass(s, c, Deliver(s, events), |Deliver(s, events)|);
  }

  /** Of the merge, each registration supplies what it passes on of the fetches it is called with. */
  lemma {:induction false} RegistrationSupplies(s: Setup, r: nat, calls: seq<Call>, n: nat)
    requires r < |s.fetchClients| && s.fetchClients[r].lineBytes > 0 && n <= |calls|
    ensures HeardBy(IFetches, r, EnteringTo(s, calls, n))
         == PassedOn(HeardTo(IFetches, r, calls, n), s.fetchClients[r].lineBytes)
    decreases n
  {
    if n > 0 {
      var call, heard := calls[n - 1], HeardTo(IFetches, r, calls, n - 1);
      RegistrationSupplies(s, r, calls, n - 1);
      if Enters(s, calls, n - 1) {
        HeardSnoc(IFetches, r, EnteringTo(s, calls, n - 1), call);
      }
      if call.callback == r && call.event.IFetch? {
        PassedOnNext(heard, call.event, s.fetchClients[r].lineBytes);
      }
    }
  }

  /** A registration listed globally supplies the fetches that enter a line, seen over all contexts; */
  lemma GlobalRegistrationSupplies(s: Setup, r: nat, events: seq<Event>)
    requires GloballyFor(s, r, IFetches) && r < |s.fetchClients| && s.fetchClients[r].lineBytes > 0
    ensures HeardBy(IFetches, r, EnteringCalls(s, Deliver(s, events)))
         == PassedOn(Filter(OfKind(IFetches), events), s.fetchClients[r].lineBytes)
  {
    RegistrationSupplies(s, r, Deliver(s, events), |Deliver(s, events)|);
    GlobalEntryHearsAll(s, r, IFetches, events);
  }

  /** one listed for a context those of the context that do, over any number of warm-ups. */
  lemma OwnRegistrationSupplies(s: Setup, r: nat, h: nat, events: seq<Event>)
    requires OnlyFor(s, r, IFetches, h) && r < |s.fetchClients| && s.fetchClients[r].lineBytes > 0
    ensures HeardBy(IFetches, r, EnteringCalls(s, Deliver(s, events)))
         == PassedOn(Filter(OfKindFrom(IFetches, h), events), s.fetchClients[r].lineBytes)
  {
    RegistrationSupplies(s, r, Deliver(s, events), |Deliver(s, events)|);
    OwnEntryHearsItsContext(s, r, IFetches, h, events);
  }

  // ----- clients with one registration

  /** Registration r is the only one of client c. */
  ghost predicate OnlyRegistration(s: Setup, r: nat, c: nat)
  {
    && r < |s.fetchClients| && s.fetchClients[r].lineBytes > 0
    && forall q :: 0 <= q < |s.fetchClients| ==> (s.fetchClients[q].client == c <==> q == r)
  }

  lemma {:induction false} OneSupplies(s: Setup, r: nat, c: nat, calls: seq<Call>, n: nat)
    requires OnlyRegistration(s, r, c) && n <= |calls|
    requires forall i :: 0 <= i < |calls| ==> calls[i].event.IFetch? && calls[i].callback < |s.fetchClients|
    ensures ForClientTo(s, c, calls, n) == HeardTo(IFetches, r, calls, n)
  {
    if n > 0 {
      OneSupplies(s, r, c, calls, n - 1);
    }
  }

  lemma OnlyOneHears(s: Setup, r: nat, c: nat, events: seq<Event>)
    requires OnlyRegistration(s, r, c)
    ensures HeardBy(IFetches, c, ClientCalls(s, events)) == HeardBy(IFetches, r, EnteringCalls(s, Deliver(s, events)))
  {
    var kept := EnteringCalls(s, Deliver(s, events));
    FetchClientHearsMerge(s, c, events);
    OneSupplies(s, r, c, kept, |kept|);
  }

  /** A global fetch client hears exactly the fetches that enter a line, seen over all contexts. */
  lemma GlobalFetchClientHears(s: Setup, r: nat, c: nat, events: seq<Event>)
    requires GloballyFor(s, r, IFetches) && OnlyRegistration(s, r, c)
    ensures HeardBy(IFetches, c, ClientCalls(s, events))
         == PassedOn(Filter(OfKind(IFetches), events), s.fetchClients[r].lineBytes)
  {
    OnlyOneHears(s, r, c, events);
    GlobalRegistrationSupplies(s, r, events);
  }

  /** A fetch client of one context hears exactly the fetches of that context's queue that enter a line. */
  lemma ContextFetchClientHears(s: Setup, r: nat, c: nat, h: nat, queues: Queues)
    requires OnlyFor(s, r, IFetches, h) && OnlyRegistration(s, r, c) && h < |queues|
    ensures HeardBy(IFetches, c, ClientCalls(s, Lifetime(queues)))
         == PassedOn(Filter(OfKind(IFetches), QueueEvents(h, queues[h])), s.fetchClients[r].lineBytes)
  {
    OwnFetchClientHears(s, r, c, h, Lifetime(queues));
    ProjectLifetime(IFetches, h, queues);
  }

  /** Over any number of warm-ups, the line remembered carries over. */
  lemma OwnFetchClientHears(s: Setup, r: nat, c: nat, h: nat, events: seq<Event>)
    requires OnlyFor(s, r, IFetches, h) && OnlyRegistration(s, r, c)
    ensures HeardBy(IFetches, c, ClientCalls(s, events))
         == PassedOn(Filter(OfKindFrom(IFetches, h), events), s.fetchClients[r].lineBytes)
  {
    OnlyOneHears(s, r, c, events);
    OwnRegistrationSupplies(s, r, h, events);
  }
}
