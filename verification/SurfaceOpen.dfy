/** Opening a chat once per request id, however often the request is delivered. */
module SurfaceOpen {
  import opened Options
  import opened Sequences

  const MAX_RESULTS := 64

  datatype Status = Ready | Blocked | Failed

  datatype Outcome = Outcome(status: Status, detail: Option<string>)

  /** The id a delivery goes by: its own, or a new one when it names none. */
  datatype Id = Given(name: string) | Created(n: nat)

  /** One delivery of a request; `ticket` tells deliveries apart. */
  datatype Delivery = Delivery(ticket: nat, id: Id, model: string)

  datatype Ack = Ack(delivery: Delivery, outcome: Outcome)

  datatype Entry = Entry(id: Id, outcome: Outcome)

  /** `jobs` maps an id to the deliveries awaiting its opening, `results` is the completed
      cache in insertion order. `deliveries`, `openings`, `acks` and `evicted` record what
      came, which ids were opened, what was answered and what left the cache. */
  datatype State = State(jobs: map<Id, seq<Delivery>>, results: seq<Entry>, deliveries: seq<Delivery>,
                         openings: seq<Id>, acks: seq<Ack>, evicted: seq<Id>)

  const EMPTY := State(map[], [], [], [], [], [])

  function Find(results: seq<Entry>, id: Id): Option<Outcome> {
    if results == [] then None
    else if results[0].id == id then Some(results[0].outcome)
    else Find(results[1..], id)
  }

  function Waiters(s: State, id: Id): seq<Delivery> {
    if id in s.jobs then s.jobs[id] else []
  }

  /** Setting a key that is there keeps its place. */
  function Store(results: seq<Entry>, id: Id, outcome: Outcome): seq<Entry> {
    if results == [] then [Entry(id, outcome)]
    else if results[0].id == id then [Entry(id, outcome)] + results[1..]
    else [results[0]] + Store(results[1..], id, outcome)
  }

  function Trim(s: State): State
    decreases |s.results|
  {
    if |s.results| > MAX_RESULTS then Trim(s.(results := s.results[1..], evicted := s.evicted + [s.results[0].id])) else s
  }

  function AckAll(waiters: seq<Delivery>, outcome: Outcome): seq<Ack> {
    if waiters == [] then [] else [Ack(waiters[0], outcome)] + AckAll(waiters[1..], outcome)
  }

  datatype Event = Deliver(name: string, model: string) | Done(id: Id, outcome: Outcome)

  function IdFor(s: State, name: string): Id {
    if name == "" then Created(|s.deliveries|) else Given(name)
  }

  function OnDeliver(s: State, name: string, model: string): State {
    var d := Delivery(|s.deliveries|, IdFor(s, name), model);
    var noted := s.(deliveries := s.deliveries + [d]);
    match Find(s.results, d.id)
    case Some(outcome) => noted.(acks := s.acks + [Ack(d, outcome)])
    case None =>
      noted.(jobs := s.jobs[d.id := Waiters(s, d.id) + [d]],
             openings := if d.id in s.jobs then s.openings else s.openings + [d.id])
  }

  /** A job that resolves answers everyone who awaited it. */
  function OnDone(s: State, id: Id, outcome: Outcome): State {
    if id !in s.jobs then s
    else
      Trim(s.(jobs := s.jobs - {id}, results := Store(s.results, id, outcome),
              acks := s.acks + AckAll(s.jobs[id], outcome)))
  }

  function Step(s: State, e: Event): State {
    match e
    case Deliver(name, model) => OnDeliver(s, name, model)
    case Done(id, outcome) => OnDone(s, id, outcome)
  }

  function Run(events: seq<Event>): State {
    if events == [] then EMPTY else Step(Run(events[..|events| - 1]), events[|events| - 1])
  }

  // ---------------------------------------------------------- the object

  class SurfaceOpener {
    var jobs: map<Id, seq<Delivery>>
    var results: seq<Entry>
    var deliveries: seq<Delivery>
    var openings: seq<Id>
    var acks: seq<Ack>
    var evicted: seq<Id>

    function View(): State
      reads this
    {
      State(jobs, results, deliveries, openings, acks, evicted)
    }

    constructor ()
      ensures View() == EMPTY
    {
      jobs, results, deliveries, openings, acks, evicted := map[], [], [], [], [], [];
    }

    method Acknowledge(name: string, model: string)
      modifies this
      ensures View() == OnDeliver(old(View()), name, model)
    {
      var d := Delivery(|deliveries|, IdFor(View(), name), model);
      deliveries := deliveries + [d];
      var outcome := Find(results, d.id);
      if outcome.Some? {
        acks := acks + [Ack(d, outcome.value)];
        return;
      }
      if d.id !in jobs {
        openings := openings + [d.id];
        jobs := jobs[d.id := []];
      }
      jobs := jobs[d.id := jobs[d.id] + [d]];
      assert jobs == old(jobs)[d.id := Waiters(old(View()), d.id) + [d]];
    }

    method JobDone(id: Id, outcome: Outcome)
      modifies this
      ensures View() == OnDone(old(View()), id, outcome)
    {
      if id !in jobs {
        return;
      }
      var waiters := jobs[id];
      jobs := jobs - {id};
      results := Store(results, id, outcome);
      var k := 0;
      ghost var before := acks;
      assert before + AckAll(waiters[..0], outcome) == before;
      while k < |waiters|
        invariant 0 <= k <= |waiters|
        invariant View() == old(View()).(jobs := jobs, results := results, acks := before + AckAll(waiters[..k], outcome))
        invariant jobs == old(jobs) - {id} && results == Store(old(results), id, outcome)
      {
        AckOneMore(waiters, k, outcome);
        Associative(before, AckAll(waiters[..k], outcome), [Ack(waiters[k], outcome)]);
        acks := acks + [Ack(waiters[k], outcome)];
        k := k + 1;
      }
      assert waiters[..|waiters|] == waiters;
      ghost var answered := View();
      while |results| > MAX_RESULTS
        invariant Trim(View()) == Trim(answered)
        decreases |results|
      {
        evicted := evicted + [results[0].id];
        results := results[1..];
      }
    }
  }

  lemma {:induction false} AckOneMore(waiters: seq<Delivery>, k: nat, outcome: Outcome)
    requires k < |waiters|
    ensures AckAll(waiters[..k + 1], outcome) == AckAll(waiters[..k], outcome) + [Ack(waiters[k], outcome)]
  {
    if k > 0 {
      AckOneMore(waiters[1..], k - 1, outcome);
      assert waiters[..k + 1][1..] == waiters[1..][..k] && waiters[..k][1..] == waiters[1..][..k - 1];
    } else {
      assert waiters[..1] == [waiters[0]] && waiters[..1][1..] == [] && waiters[..0] == [];
    }
  }

  // ---------------------------------------------------------- the cache

  ghost predicate OneEach(results: seq<Entry>) {
    results == [] || (Find(results[1..], results[0].id).None? && OneEach(results[1..]))
  }

  predicate Cached(s: State, id: Id) {
    Find(s.results, id).Some?
  }

  predicate Retained(s: State, id: Id) {
    id in s.jobs || Cached(s, id)
  }

  function Times(list: seq<Id>, id: Id): nat {
    if list == [] then 0 else Times(list[..|list| - 1], id) + if list[|list| - 1] == id then 1 else 0
  }

  lemma {:induction false} TimesAppend(list: seq<Id>, one: Id, id: Id)
    ensures Times(list + [one], id) == Times(list, id) + if one == id then 1 else 0
  {
    assert (list + [one])[..|list|] == list;
  }

  lemma {:induction false} StoreSpec(results: seq<Entry>, id: Id, outcome: Outcome, other: Id)
    requires OneEach(results)
    ensures Find(Store(results, id, outcome), other) == if other == id then Some(outcome) else Find(results, other)
    ensures OneEach(Store(results, id, outcome))
    ensures |Store(results, id, outcome)| == |results| + if Find(results, id).Some? then 0 else 1
  {
    if results != [] {
      if results[0].id == id {
        DropFirst(Entry(id, outcome), results[1..]);
      } else {
        StoreSpec(results[1..], id, outcome, other);
        StoreSpec(results[1..], id, outcome, results[0].id);
        DropFirst(results[0], Store(results[1..], id, outcome));
      }
    }
  }

  /** Between steps: the cache is within its bound, no id is both being opened and done, and
      every job has someone waiting. */
  ghost predicate Sound(s: State) {
    && |s.results| <= MAX_RESULTS && OneEach(s.results)
    && (forall id :: id in s.jobs ==> !Cached(s, id) && s.jobs[id] != [])
  }

  lemma {:induction false} TrimSound(s: State)
    requires OneEach(s.results) && |s.results| <= MAX_RESULTS + 1
    ensures var t := Trim(s);
      |t.results| <= MAX_RESULTS && OneEach(t.results)
      && t == s.(results := t.results, evicted := t.evicted)
      && (forall id :: Find(t.results, id) == if |s.results| > MAX_RESULTS && s.results[0].id == id then None else Find(s.results, id))
      && t.evicted == if |s.results| > MAX_RESULTS then s.evicted + [s.results[0].id] else s.evicted
  {
    if |s.results| > MAX_RESULTS {
      var t := s.(results := s.results[1..], evicted := s.evicted + [s.results[0].id]);
      assert Trim(s) == Trim(t) == t;
    }
  }

  lemma {:induction false} DoneShape(s: State, id: Id, outcome: Outcome, other: Id)
    requires Sound(s) && id in s.jobs
    ensures var t := OnDone(s, id, outcome);
      |t.results| <= MAX_RESULTS && OneEach(t.results)
      && t.jobs == s.jobs - {id} && t.deliveries == s.deliveries && t.openings == s.openings
      && t.acks == s.acks + AckAll(s.jobs[id], outcome)
      && Times(t.evicted, other) + (if Cached(t, other) then 1 else 0)
         == Times(s.evicted, other) + (if Cached(s, other) || other == id then 1 else 0)
      && (Cached(t, other) ==> Find(t.results, other) == if other == id then Some(outcome) else Find(s.results, other))
  {
    var stored := s.(jobs := s.jobs - {id}, results := Store(s.results, id, outcome), acks := s.acks + AckAll(s.jobs[id], outcome));
    StoreSpec(s.results, id, outcome, other);
    TrimSound(stored);
    if |stored.results| > MAX_RESULTS {
      TimesAppend(s.evicted, stored.results[0].id, other);
    }
  }

  lemma {:induction false} StepSound(s: State, e: Event)
    requires Sound(s)
    ensures Sound(Step(s, e))
  {
    match e
    case Deliver(name, model) =>
    case Done(id, outcome) =>
      if id in s.jobs {
        DoneShape(s, id, outcome, id);
        forall other | other in OnDone(s, id, outcome).jobs ensures !Cached(OnDone(s, id, outcome), other) {
          DoneShape(s, id, outcome, other);
          assert other in s.jobs && !Cached(s, other);
        }
      }
  }

  lemma {:induction false} RunSound(events: seq<Event>)
    ensures Sound(Run(events))
  {
    if events != [] {
      RunSound(events[..|events| - 1]);
      StepSound(Run(events[..|events| - 1]), events[|events| - 1]);
    }
  }

  /** An id is opened once for each time it was evicted, and once more while it is retained:
      as long as it stays retained, no replay opens it again. The completed cache never holds
      more than 64 ids. */
  lemma {:induction false} OpensOncePerRetention(events: seq<Event>, id: Id)
    ensures Times(Run(events).openings, id) == Times(Run(events).evicted, id) + if Retained(Run(events), id) then 1 else 0
    ensures |Run(events).results| <= MAX_RESULTS
  {
    RunSound(events);
    if events != [] {
      var before, last := events[..|events| - 1], events[|events| - 1];
      OpensOncePerRetention(before, id);
      RunSound(before);
      OpeningsStep(Run(before), last, id);
    }
  }

  lemma {:induction false} OpeningsStep(s: State, e: Event, id: Id)
    requires Sound(s) && Times(s.openings, id) == Times(s.evicted, id) + if Retained(s, id) then 1 else 0
    ensures Times(Step(s, e).openings, id) == Times(Step(s, e).evicted, id) + if Retained(Step(s, e), id) then 1 else 0
  {
    match e
    case Deliver(name, model) => TimesAppend(s.openings, IdFor(s, name), id);
    case Done(done, outcome) =>
      if done in s.jobs {
        DoneShape(s, done, outcome, id);
      }
  }

  // ---------------------------------------------------------- acknowledgements

  function AcksFor(acks: seq<Ack>, ticket: nat): nat {
    if acks == [] then 0
    else AcksFor(acks[..|acks| - 1], ticket) + if acks[|acks| - 1].delivery.ticket == ticket then 1 else 0
  }

  function WaitsFor(waiters: seq<Delivery>, ticket: nat): nat {
    if waiters == [] then 0 else (if waiters[0].ticket == ticket then 1 else 0) + WaitsFor(waiters[1..], ticket)
  }

  lemma {:induction false} AcksForAll(acks: seq<Ack>, waiters: seq<Delivery>, outcome: Outcome, ticket: nat)
    ensures AcksFor(acks + AckAll(waiters, outcome), ticket) == AcksFor(acks, ticket) + WaitsFor(waiters, ticket)
    decreases |waiters|
  {
    if waiters == [] {
      assert acks + [] == acks;
    } else {
      var first := Ack(waiters[0], outcome);
      Associative(acks, [first], AckAll(waiters[1..], outcome));
      AcksForAll(acks + [first], waiters[1..], outcome, ticket);
    }
  }

  lemma {:induction false} WaitsForAppend(waiters: seq<Delivery>, d: Delivery, ticket: nat)
    ensures WaitsFor(waiters + [d], ticket) == WaitsFor(waiters, ticket) + if d.ticket == ticket then 1 else 0
  {
    if waiters != [] {
      WaitsForAppend(waiters[1..], d, ticket);
      assert (waiters + [d])[1..] == waiters[1..] + [d];
    } else {
      assert [d][1..] == [] && waiters + [d] == [d];
    }
  }

  lemma {:induction false} NotWaiting(waiters: seq<Delivery>, ticket: nat)
    requires forall d :: d in waiters ==> d.ticket != ticket
    ensures WaitsFor(waiters, ticket) == 0
  {
    if waiters != [] {
      NotWaiting(waiters[1..], ticket);
    }
  }

  /** Whoever waits is one of the deliveries, and waits under its own id. */
  predicate Genuine(s: State, d: Delivery, id: Id) {
    d.ticket < |s.deliveries| && s.deliveries[d.ticket] == d && d.id == id
  }

  ghost predicate AllGenuine(s: State) {
    && (forall id, d :: id in s.jobs && d in s.jobs[id] ==> Genuine(s, d, id))
    && (forall k :: 0 <= k < |s.deliveries| ==> s.deliveries[k].ticket == k)
    && (forall a :: a in s.acks ==> Genuine(s, a.delivery, a.delivery.id))
  }

  ghost predicate Answered(s: State, ticket: nat) {
    AcksFor(s.acks, ticket)
    + (if ticket < |s.deliveries| then WaitsFor(Waiters(s, s.deliveries[ticket].id), ticket) else 0)
    == if ticket < |s.deliveries| then 1 else 0
  }

  lemma {:induction false} AckedAre(waiters: seq<Delivery>, outcome: Outcome)
    ensures forall a :: a in AckAll(waiters, outcome) ==> a.delivery in waiters && a.outcome == outcome
  {
    if waiters != [] {
      AckedAre(waiters[1..], outcome);
    }
  }

  lemma {:induction false} GenuineStep(s: State, e: Event)
    requires Sound(s) && AllGenuine(s)
    ensures AllGenuine(Step(s, e))
  {
    var t := Step(s, e);
    if e.Done? && e.id in s.jobs {
      DoneShape(s, e.id, e.outcome, e.id);
      AckedAre(s.jobs[e.id], e.outcome);
      forall a | a in t.acks ensures Genuine(t, a.delivery, a.delivery.id) {
        assert a in s.acks || a in AckAll(s.jobs[e.id], e.outcome);
        assert a !in s.acks ==> Genuine(s, a.delivery, e.id);
      }
      forall id, d | id in t.jobs && d in t.jobs[id] ensures Genuine(t, d, id) {
        assert Genuine(s, d, id);
      }
    } else if e.Deliver? {
      forall id, d | id in t.jobs && d in t.jobs[id] ensures Genuine(t, d, id) {
        assert id in s.jobs && d in s.jobs[id] ==> Genuine(s, d, id);
      }
    }
  }

  lemma {:induction false} AnsweredStep(s: State, e: Event, ticket: nat)
    requires Sound(s) && AllGenuine(s) && Answered(s, ticket)
    ensures Answered(Step(s, e), ticket)
  {
    match e
    case Deliver(name, model) => DeliverAnswers(s, name, model, ticket);
    case Done(id, outcome) =>
      if id in s.jobs {
        DoneShape(s, id, outcome, id);
        AcksForAll(s.acks, s.jobs[id], outcome, ticket);
        if !(ticket < |s.deliveries| && s.deliveries[ticket].id == id) {
          forall d | d in s.jobs[id] ensures d.ticket != ticket {
            assert Genuine(s, d, id);
          }
          NotWaiting(s.jobs[id], ticket);
        }
      }
  }

  lemma {:induction false} DeliverAnswers(s: State, name: string, model: string, ticket: nat)
    requires Sound(s) && AllGenuine(s) && Answered(s, ticket)
    ensures Answered(OnDeliver(s, name, model), ticket)
  {
    var d := Delivery(|s.deliveries|, IdFor(s, name), model);
    var waiters := Waiters(s, d.id);
    assert forall w :: w in waiters ==> Genuine(s, w, d.id);
    if ticket == d.ticket {
      NotWaiting(waiters, ticket);
    }
    if !Cached(s, d.id) {
      WaitsForAppend(waiters, d, ticket);
    }
  }

  lemma {:induction false} RunAnswered(events: seq<Event>, ticket: nat)
    ensures AllGenuine(Run(events)) && Answered(Run(events), ticket)
  {
    if events != [] {
      var before, last := events[..|events| - 1], events[|events| - 1];
      RunAnswered(before, ticket);
      RunSound(before);
      GenuineStep(Run(before), last);
      AnsweredStep(Run(before), last, ticket);
    }
  }

  /** Every delivery is answered exactly once, or is still waiting, once, for the opening of
      its own id; when nothing is being opened, every delivery has its one answer. */
  lemma {:induction false} EachDeliveryIsAnsweredOnce(events: seq<Event>, ticket: nat)
    requires ticket < |Run(events).deliveries|
    ensures var s := Run(events);
      AcksFor(s.acks, ticket) == if WaitsFor(Waiters(s, s.deliveries[ticket].id), ticket) == 1 then 0 else 1
    ensures Run(events).jobs == map[] ==> AcksFor(Run(events).acks, ticket) == 1
  {
    RunAnswered(events, ticket);
  }

  // ---------------------------------------------------------- the same answer

  /** Since it was evicted that often and so many acknowledgements had been sent, all answers
      for an id are the one result of its opening. */
  ghost predicate AgreeingSince(s: State, id: Id, evictions: nat, sent: nat) {
    sent <= |s.acks| && evictions <= Times(s.evicted, id)
    && (Times(s.evicted, id) == evictions ==>
          forall a :: a in s.acks[sent..] && a.delivery.id == id ==> Find(s.results, id) == Some(a.outcome))
  }

  lemma {:induction false} AgreeingStep(s: State, e: Event, id: Id, evictions: nat, sent: nat)
    requires Sound(s) && AllGenuine(s) && AgreeingSince(s, id, evictions, sent)
    ensures AgreeingSince(Step(s, e), id, evictions, sent)
  {
    match e
    case Deliver(name, model) =>
      AcksLater(s.acks, Step(s, e).acks, sent);
    case Done(done, outcome) =>
      if done in s.jobs {
        DoneShape(s, done, outcome, id);
        AckedAre(s.jobs[done], outcome);
        AcksLater(s.acks, Step(s, e).acks, sent);
        var t := OnDone(s, done, outcome);
        if Times(t.evicted, id) == evictions {
          forall a | a in t.acks[sent..] && a.delivery.id == id ensures Find(t.results, id) == Some(a.outcome) {
            if a !in s.acks[sent..] {
              assert a in AckAll(s.jobs[done], outcome) && Genuine(s, a.delivery, done);
            }
          }
        }
      }
  }

  lemma {:induction false} AcksLater(acks: seq<Ack>, more: seq<Ack>, sent: nat)
    requires acks <= more && sent <= |acks|
    ensures more[sent..] == acks[sent..] + more[|acks|..]
  {
  }

  lemma {:induction false} RunAgreeing(events: seq<Event>, more: seq<Event>, id: Id)
    ensures AgreeingSince(Run(events + more), id, Times(Run(events).evicted, id), |Run(events).acks|)
    decreases |more|
  {
    if more == [] {
      assert events + more == events;
    } else {
      var early, last := more[..|more| - 1], more[|more| - 1];
      var before := events + early;
      assert events + more == before + [last] && (before + [last])[..|before|] == before;
      RunAgreeing(events, early, id);
      RunSound(before);
      RunAnswered(before, 0);
      AgreeingStep(Run(before), last, id, Times(Run(events).evicted, id), |Run(events).acks|);
    }
  }

  /** From one eviction of an id to the next, all deliveries of the request are told the same
      status and detail: two acknowledgements sent while the id was not evicted agree. */
  lemma {:induction false} RepliesAgree(events: seq<Event>, more: seq<Event>, i: nat, j: nat)
    requires |Run(events).acks| <= i < |Run(events + more).acks| && |Run(events).acks| <= j < |Run(events + more).acks|
    requires Run(events + more).acks[i].delivery.id == Run(events + more).acks[j].delivery.id
    requires var id := Run(events + more).acks[i].delivery.id;
      Times(Run(events + more).evicted, id) == Times(Run(events).evicted, id)
    ensures Run(events + more).acks[i].outcome == Run(events + more).acks[j].outcome
  {
    var acks, sent := Run(events + more).acks, |Run(events).acks|;
    RunAgreeing(events, more, acks[i].delivery.id);
    assert acks[i] == acks[sent..][i - sent] && acks[j] == acks[sent..][j - sent];
  }

  // ---------------------------------------------------------- how long an answer is kept

  /** The openings that have ended, in order, each with its outcome. */
  function Completed(events: seq<Event>): seq<Entry> {
    if events == [] then []
    else
      var before, last := events[..|events| - 1], events[|events| - 1];
      Completed(before) + if last.Done? && last.id in Run(before).jobs then [Entry(last.id, last.outcome)] else []
  }

  lemma {:induction false} StoreNew(results: seq<Entry>, id: Id, outcome: Outcome)
    requires Find(results, id).None?
    ensures Store(results, id, outcome) == results + [Entry(id, outcome)]
  {
    if results != [] {
      StoreNew(results[1..], id, outcome);
      assert results == [results[0]] + results[1..];
    }
  }

  /** All of a list when it has at most 64 entries, and otherwise its last 64. */
  function Newest(entries: seq<Entry>): seq<Entry> {
    if |entries| <= 64 then entries else entries[|entries| - 64..]
  }

  lemma {:induction false} NewestOfMore(entries: seq<Entry>, one: Entry)
    ensures Newest(entries + [one])
         == if |Newest(entries)| < 64 then Newest(entries) + [one] else (Newest(entries) + [one])[1..]
  {
  }

  /** What was evicted and what is cached are, together, all that was completed. */
  predicate Keeps(s: State, completed: seq<Entry>) {
    s.results == Newest(completed) && |s.evicted| + |s.results| == |completed|
    && forall i :: 0 <= i < |s.evicted| ==> s.evicted[i] == completed[i].id
  }

  lemma {:induction false} DoneKeeps(s: State, id: Id, outcome: Outcome, completed: seq<Entry>)
    requires Sound(s) && id in s.jobs && Keeps(s, completed)
    ensures Keeps(OnDone(s, id, outcome), completed + [Entry(id, outcome)])
  {
    var one := Entry(id, outcome);
    var stored := s.(jobs := s.jobs - {id}, results := Store(s.results, id, outcome), acks := s.acks + AckAll(s.jobs[id], outcome));
    StoreNew(s.results, id, outcome);
    NewestOfMore(completed, one);
    if |stored.results| > MAX_RESULTS {
      var trimmed := stored.(results := stored.results[1..], evicted := stored.evicted + [stored.results[0].id]);
      assert Trim(stored) == Trim(trimmed) == trimmed;
      assert stored.results[0] == completed[|s.evicted|];
    }
  }

  /** The cache holds the outcomes of the last 64 openings that ended, in order: an outcome is
      kept until exactly 64 further openings have ended. */
  lemma {:induction false} CacheHoldsNewest(events: seq<Event>)
    ensures Run(events).results == Newest(Completed(events))
    ensures Keeps(Run(events), Completed(events))
  {
    if events != [] {
      var before, last := events[..|events| - 1], events[|events| - 1];
      CacheHoldsNewest(before);
      RunSound(before);
      if last.Done? && last.id in Run(before).jobs {
        DoneKeeps(Run(before), last.id, last.outcome, Completed(before));
      } else {
        assert Completed(before) + [] == Completed(before);
      }
    }
  }

  predicate Came(completed: seq<Entry>, a: Ack) {
    Entry(a.delivery.id, a.outcome) in completed
  }

  lemma {:induction false} FoundIsListed(results: seq<Entry>, id: Id)
    ensures Find(results, id).Some? ==> Entry(id, Find(results, id).value) in results
  {
    if results != [] {
      FoundIsListed(results[1..], id);
    }
  }

  lemma {:induction false} NewestAreEntries(entries: seq<Entry>)
    ensures forall e :: e in Newest(entries) ==> e in entries
  {
  }

  ghost predicate AllCame(completed: seq<Entry>, acks: seq<Ack>) {
    forall a :: a in acks ==> Came(completed, a)
  }

  lemma {:induction false} DeliverCame(s: State, name: string, model: string, completed: seq<Entry>)
    requires AllCame(completed, s.acks) && s.results == Newest(completed)
    ensures AllCame(completed, OnDeliver(s, name, model).acks)
  {
    NewestAreEntries(completed);
    FoundIsListed(s.results, IdFor(s, name));
  }

  lemma {:induction false} DoneCame(s: State, id: Id, outcome: Outcome, completed: seq<Entry>)
    requires Sound(s) && AllGenuine(s) && id in s.jobs && AllCame(completed, s.acks)
    ensures AllCame(completed + [Entry(id, outcome)], OnDone(s, id, outcome).acks)
  {
    DoneShape(s, id, outcome, id);
    AckedAre(s.jobs[id], outcome);
    forall a | a in s.acks + AckAll(s.jobs[id], outcome) ensures Came(completed + [Entry(id, outcome)], a) {
      if a in s.acks {
        assert Came(completed, a);
      } else {
        assert Genuine(s, a.delivery, id);
      }
    }
  }

  /** Every acknowledgement carries the outcome of an opening of its own id that has ended. */
  lemma {:induction false} AnswersAreOutcomes(events: seq<Event>)
    ensures AllCame(Completed(events), Run(events).acks)
  {
    if events != [] {
      var before, last := events[..|events| - 1], events[|events| - 1];
      AnswersAreOutcomes(before);
      CacheHoldsNewest(before);
      RunAnswered(before, 0);
      RunSound(before);
      assert Completed(before) + [] == Completed(before);
      if last.Deliver? {
        DeliverCame(Run(before), last.name, last.model, Completed(before));
      } else if last.id in Run(before).jobs {
        DoneCame(Run(before), last.id, last.outcome, Completed(before));
      }
    }
  }

  // ---------------------------------------------------------- who came

  /** The deliveries among the events, in order. */
  function Deliveries(events: seq<Event>): seq<Event> {
    if events == [] then []
    else Deliveries(events[..|events| - 1]) + if events[|events| - 1].Deliver? then [events[|events| - 1]] else []
  }

  /** A delivery goes by the name it gives, and by one of its own when it gives none. */
  predicate GoesBy(d: Delivery, e: Event, k: nat) {
    e.Deliver? && d == Delivery(k, if e.name == "" then Created(k) else Given(e.name), e.model)
  }

  /** Every delivery is on record once, in order, under its own name; so the unnamed ones are
      never taken for one another. */
  lemma {:induction false} DeliveriesAreNoted(events: seq<Event>)
    ensures |Run(events).deliveries| == |Deliveries(events)|
    ensures forall k :: 0 <= k < |Deliveries(events)| ==> GoesBy(Run(events).deliveries[k], Deliveries(events)[k], k)
  {
    if events != [] {
      var before, last := events[..|events| - 1], events[|events| - 1];
      DeliveriesAreNoted(before);
      RunSound(before);
      if last.Done? && last.id in Run(before).jobs {
        DoneShape(Run(before), last.id, last.outcome, last.id);
      }
    }
  }
}
