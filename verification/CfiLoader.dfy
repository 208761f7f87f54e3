/**
The per-minidump CFI cache: many futures, joined by `join_all` on one thread, ask for the CFI of
a module, and the first one to ask for a key fetches it for all.

A step is the code between two awaits.  The loader locks its map twice in one such stretch (to
look the key up and to insert the notifier); the model has no preemption between the two locks,
which is what `join_all` gives.  A run is any sequence of steps; new calls may start at any time.
*/
module CfiLoader {
  import opened Common

  /** A fetched CFI cache, as the fetch returned it. */
  type Cfi(==,!new)

  datatype LookupKey = LookupKey(baseAddr: u64, size: u64)

  datatype LazyCfiCache = Fetched(cfi: Cfi) | Fetching(notify: nat)

  /** Where one call of the loader stands.  `Woken` is a waiter whose notifier has fired. */
  datatype Phase =
    | Starting
    | Waiting(notify: nat)
    | Woken
    | InFetch
    | Done(cfi: Cfi)

  datatype Call = Call(key: LookupKey, phase: Phase)

  /** `fetches` logs the key of every fetch that was started; `notifiers` counts those created. */
  datatype State = State(
    cache: map<LookupKey, LazyCfiCache>,
    calls: seq<Call>,
    notifiers: nat,
    fetches: seq<LookupKey>)

  datatype Event =
    | Begin(key: LookupKey)
    | Poll(call: nat)
    | Complete(call: nat, cfi: Cfi)

  function Init(): State {
    State(map[], [], 0, [])
  }

  predicate Enabled(s: State, e: Event) {
    match e
    case Begin(_) => true
    case Poll(t) => t < |s.calls| && (s.calls[t].phase.Starting? || s.calls[t].phase.Woken?)
    case Complete(t, _) => t < |s.calls| && s.calls[t].phase.InFetch?
  }

  /** `notify_waiters`: every call waiting on the notifier will be polled again. */
  function Wake(c: Call, notify: nat): Call {
    if c.phase == Waiting(notify) then c.(phase := Woken) else c
  }

  function WakeAll(calls: seq<Call>, notify: nat): seq<Call> {
    seq(|calls|, i requires 0 <= i < |calls| => Wake(calls[i], notify))
  }

  function Next(s: State, e: Event): State
    requires Enabled(s, e)
  {
    match e
    case Begin(key) =>
      s.(calls := s.calls + [Call(key, Starting)])
    case Poll(t) =>
      var key := s.calls[t].key;
      if key !in s.cache then
        State(s.cache[key := Fetching(s.notifiers)], s.calls[t := Call(key, InFetch)],
              s.notifiers + 1, s.fetches + [key])
      else
        (match s.cache[key]
         case Fetched(cfi) => s.(calls := s.calls[t := Call(key, Done(cfi))])
         case Fetching(notify) => s.(calls := s.calls[t := Call(key, Waiting(notify))]))
    case Complete(t, cfi) =>
      var key := s.calls[t].key;
      var woken :=
        if key in s.cache && s.cache[key].Fetching? then WakeAll(s.calls, s.cache[key].notify)
        else s.calls;
      s.(cache := s.cache[key := Fetched(cfi)], calls := woken[t := Call(key, Done(cfi))])
  }

  /** The state after a run, or `None` if some event of it was not enabled. */
  function Run(events: seq<Event>): Option<State> {
    if events == [] then Some(Init())
    else
      var n := |events| - 1;
      match Run(events[..n])
      case None => None
      case Some(s) => if Enabled(s, events[n]) then Some(Next(s, events[n])) else None
  }

  // ---------------------------------------------------------------------------------------------
  // The invariant

  predicate NoDuplicates<T(==)>(s: seq<T>) {
    forall i, j :: 0 <= i < j < |s| ==> s[i] != s[j]
  }

  /** What one call's phase says about the cache entry of its key. */
  predicate CallAgrees(s: State, c: Call) {
    match c.phase
    case Starting => true
    case Waiting(notify) => c.key in s.cache && s.cache[c.key] == Fetching(notify)
    case Woken => c.key in s.cache && s.cache[c.key].Fetched?
    case InFetch => c.key in s.cache && s.cache[c.key].Fetching?
    case Done(cfi) => c.key in s.cache && s.cache[c.key] == Fetched(cfi)
  }

  /** Some call is fetching `key`: this is who will fire its notifier. */
  ghost predicate HasFetcher(s: State, key: LookupKey) {
    exists t :: 0 <= t < |s.calls| && s.calls[t] == Call(key, InFetch)
  }

  ghost predicate Requested(s: State, key: LookupKey) {
    exists t :: 0 <= t < |s.calls| && s.calls[t].key == key
  }

  ghost predicate CallsAgree(s: State) {
    forall t :: 0 <= t < |s.calls| ==> CallAgrees(s, s.calls[t])
  }

  /** Every entry that is being fetched has a fetcher, and no key has two. */
  ghost predicate OneFetcherEach(s: State) {
    && (forall k :: k in s.cache && s.cache[k].Fetching? ==> HasFetcher(s, k))
    && (forall t, u :: 0 <= t < u < |s.calls| && s.calls[t].phase.InFetch? && s.calls[u].phase.InFetch?
          ==> s.calls[t].key != s.calls[u].key)
  }

  /** No two entries share a notifier. */
  ghost predicate NotifiersDistinct(s: State) {
    && (forall k :: k in s.cache && s.cache[k].Fetching? ==> s.cache[k].notify < s.notifiers)
    && (forall k, l :: k in s.cache && l in s.cache && k != l && s.cache[k].Fetching? && s.cache[l].Fetching?
          ==> s.cache[k].notify != s.cache[l].notify)
  }

  /** The keys of the map are the keys that were fetched, each once and for some call. */
  ghost predicate FetchesLogged(s: State) {
    && (forall k :: k in s.cache ==> Requested(s, k))
    && (forall k :: k in s.cache <==> k in s.fetches)
    && NoDuplicates(s.fetches)
  }

  ghost predicate Inv(s: State) {
    CallsAgree(s) && OneFetcherEach(s) && NotifiersDistinct(s) && FetchesLogged(s)
  }

  /** Steps that keep the keys of the calls and lose no key of a call keep requests. */
  lemma RequestedPersists(s: State, s': State, key: LookupKey)
    requires Requested(s, key) && |s.calls| <= |s'.calls|
    requires forall t :: 0 <= t < |s.calls| ==> s'.calls[t].key == s.calls[t].key
    ensures Requested(s', key)
  {
    var t :| 0 <= t < |s.calls| && s.calls[t].key == key;
    assert s'.calls[t].key == key;
  }

  lemma BeginKeepsInv(s: State, key: LookupKey)
    requires Inv(s)
    ensures Inv(Next(s, Begin(key)))
  {
    var s' := Next(s, Begin(key));
    forall k | k in s'.cache ensures Requested(s', k) {
      RequestedPersists(s, s', k);
    }
    forall k | k in s'.cache && s'.cache[k].Fetching? ensures HasFetcher(s', k) {
      var t :| 0 <= t < |s.calls| && s.calls[t] == Call(k, InFetch);
      assert s'.calls[t] == Call(k, InFetch);
    }
  }

  lemma PollKeepsFetchers(s: State, t: nat)
    requires CallsAgree(s) && OneFetcherEach(s) && Enabled(s, Poll(t))
    ensures OneFetcherEach(Next(s, Poll(t)))
  {
    var s' := Next(s, Poll(t));
    forall k | k in s'.cache && s'.cache[k].Fetching? ensures HasFetcher(s', k) {
      if k in s.cache {
        assert HasFetcher(s, k);
        var u :| 0 <= u < |s.calls| && s.calls[u] == Call(k, InFetch);
        assert s'.calls[u] == Call(k, InFetch);
      } else {
        assert s'.calls[t] == Call(k, InFetch);
      }
    }
    forall u | 0 <= u < |s.calls| && s.calls[u].phase.InFetch?
      ensures s.calls[u].key in s.cache
    {
      assert CallAgrees(s, s.calls[u]);
    }
  }

  lemma PollKeepsLog(s: State, t: nat)
    requires FetchesLogged(s) && Enabled(s, Poll(t))
    ensures FetchesLogged(Next(s, Poll(t)))
  {
    var s' := Next(s, Poll(t));
    assert s'.calls[t].key == s.calls[t].key;
    forall k | k in s'.cache ensures Requested(s', k) {
      if k in s.cache {
        RequestedPersists(s, s', k);
      }
    }
    forall k ensures k in s'.cache <==> k in s'.fetches {
      if k == s.calls[t].key && k !in s.cache {
        assert s'.fetches[|s.fetches|] == k;
      }
    }
  }

  lemma PollKeepsAgreement(s: State, t: nat)
    requires CallsAgree(s) && Enabled(s, Poll(t))
    ensures CallsAgree(Next(s, Poll(t)))
  {
    var s' := Next(s, Poll(t));
    forall u | 0 <= u < |s'.calls| ensures CallAgrees(s', s'.calls[u]) {
      assert CallAgrees(s, s.calls[u]);
    }
  }

  lemma PollKeepsNotifiers(s: State, t: nat)
    requires NotifiersDistinct(s) && Enabled(s, Poll(t))
    ensures NotifiersDistinct(Next(s, Poll(t)))
  {
  }

  lemma PollKeepsInv(s: State, t: nat)
    requires Inv(s) && Enabled(s, Poll(t))
    ensures Inv(Next(s, Poll(t)))
  {
    PollKeepsAgreement(s, t);
    PollKeepsFetchers(s, t);
    PollKeepsNotifiers(s, t);
    PollKeepsLog(s, t);
  }

  lemma CompleteKeepsAgreement(s: State, t: nat, cfi: Cfi)
    requires CallsAgree(s) && OneFetcherEach(s) && NotifiersDistinct(s) && Enabled(s, Complete(t, cfi))
    ensures CallsAgree(Next(s, Complete(t, cfi)))
  {
    var s' := Next(s, Complete(t, cfi));
    assert CallAgrees(s, s.calls[t]);
    forall u | 0 <= u < |s'.calls| ensures CallAgrees(s', s'.calls[u]) {
      assert CallAgrees(s, s.calls[u]);
    }
  }

  lemma CompleteKeepsFetchers(s: State, t: nat, cfi: Cfi)
    requires OneFetcherEach(s) && Enabled(s, Complete(t, cfi))
    ensures OneFetcherEach(Next(s, Complete(t, cfi)))
  {
    var s' := Next(s, Complete(t, cfi));
    forall k | k in s'.cache && s'.cache[k].Fetching? ensures HasFetcher(s', k) {
      assert k in s.cache && s.cache[k].Fetching?;
      var u :| 0 <= u < |s.calls| && s.calls[u] == Call(k, InFetch);
      assert s'.calls[u] == Call(k, InFetch);
    }
  }

  lemma CompleteKeepsInv(s: State, t: nat, cfi: Cfi)
    requires Inv(s) && Enabled(s, Complete(t, cfi))
    ensures Inv(Next(s, Complete(t, cfi)))
  {
    var s' := Next(s, Complete(t, cfi));
    assert CallAgrees(s, s.calls[t]);
    CompleteKeepsAgreement(s, t, cfi);
    CompleteKeepsFetchers(s, t, cfi);
    forall k | k in s'.cache ensures Requested(s', k) {
      RequestedPersists(s, s', k);
    }
    assert NotifiersDistinct(s');
  }

  lemma StepKeepsInv(s: State, e: Event)
    requires Inv(s) && Enabled(s, e)
    ensures Inv(Next(s, e))
  {
    match e
    case Begin(key) => BeginKeepsInv(s, key);
    case Poll(t) => PollKeepsInv(s, t);
    case Complete(t, cfi) => CompleteKeepsInv(s, t, cfi);
  }

  lemma {:induction false} RunKeepsInv(events: seq<Event>)
    ensures Run(events).Some? ==> Inv(Run(events).value)
  {
    if events != [] {
      var n := |events| - 1;
      RunKeepsInv(events[..n]);
      if Run(events).Some? {
        StepKeepsInv(Run(events[..n]).value, events[n]);
      }
    }
  }

  // ---------------------------------------------------------------------------------------------
  // Safety over every run

  /** Each key is fetched at most once in a run. */
  lemma SingleFlight(events: seq<Event>)
    requires Run(events).Some?
    ensures NoDuplicates(Run(events).value.fetches)
  {
    RunKeepsInv(events);
  }

  /** A call that has returned keeps its result, whatever happens next. */
  lemma {:induction false} ResultsAreFinal(events: seq<Event>, more: seq<Event>, t: nat)
    requires Run(events).Some? && Run(events + more).Some?
    requires t < |Run(events).value.calls| && Run(events).value.calls[t].phase.Done?
    ensures t < |Run(events + more).value.calls|
    ensures Run(events + more).value.calls[t] == Run(events).value.calls[t]
  {
    if more == [] {
      assert events + more == events;
    } else {
      var n := |more| - 1;
      assert (events + more)[..|events + more| - 1] == events + more[..n];
      assert (events + more)[|events + more| - 1] == more[n];
      ResultsAreFinal(events, more[..n], t);
    }
  }

  /** All calls for one key return the same value, even calls that return at different times. */
  lemma CallersAgree(events: seq<Event>, more: seq<Event>, t: nat, u: nat)
    requires Run(events).Some? && Run(events + more).Some?
    requires t < |Run(events).value.calls| && Run(events).value.calls[t].phase.Done?
    requires u < |Run(events + more).value.calls| && Run(events + more).value.calls[u].phase.Done?
    requires Run(events).value.calls[t].key == Run(events + more).value.calls[u].key
    ensures Run(events).value.calls[t].phase == Run(events + more).value.calls[u].phase
  {
    ResultsAreFinal(events, more, t);
    RunKeepsInv(events + more);
    assert CallAgrees(Run(events + more).value, Run(events + more).value.calls[t]);
    assert CallAgrees(Run(events + more).value, Run(events + more).value.calls[u]);
  }

  /** Event `i` of the run is the end of a fetch for `key`. */
  ghost predicate FetchEnds(events: seq<Event>, i: int, key: LookupKey) {
    && 0 <= i < |events| && events[i].Complete? && Run(events[..i]).Some?
    && events[i].call < |Run(events[..i]).value.calls|
    && Run(events[..i]).value.calls[events[i].call].key == key
  }

  /** Event `i` is the only end of a fetch for `key`, and the fetch returned `cfi`. */
  ghost predicate OnlyFetch(events: seq<Event>, i: int, key: LookupKey, cfi: Cfi) {
    FetchEnds(events, i, key) && events[i].cfi == cfi && forall j :: FetchEnds(events, j, key) ==> j == i
  }

  lemma FetchEndsEarlier(events: seq<Event>, i: int, key: LookupKey)
    requires events != [] && i < |events| - 1
    ensures FetchEnds(events, i, key) <==> FetchEnds(events[..|events| - 1], i, key)
  {
    if 0 <= i {
      assert events[..|events| - 1][..i] == events[..i];
    }
  }

  /** A key that is fetched in the map was fetched once, with this value; any other key was not
      fetched yet. */
  ghost predicate IsFromFetch(events: seq<Event>, cache: map<LookupKey, LazyCfiCache>, key: LookupKey) {
    if key in cache && cache[key].Fetched? then exists i :: OnlyFetch(events, i, key, cache[key].cfi)
    else forall j :: !FetchEnds(events, j, key)
  }

  lemma OtherEventKeeps(events: seq<Event>, cache: map<LookupKey, LazyCfiCache>, key: LookupKey)
    requires events != [] && IsFromFetch(events[..|events| - 1], cache, key)
    requires !FetchEnds(events, |events| - 1, key)
    ensures IsFromFetch(events, cache, key)
  {
    var n := |events| - 1;
    forall j | j < n ensures FetchEnds(events, j, key) <==> FetchEnds(events[..n], j, key) {
      FetchEndsEarlier(events, j, key);
    }
    if key in cache && cache[key].Fetched? {
      var i :| OnlyFetch(events[..n], i, key, cache[key].cfi);
      assert OnlyFetch(events, i, key, cache[key].cfi);
    }
  }

  lemma FirstFetchEnds(events: seq<Event>, cache: map<LookupKey, LazyCfiCache>, key: LookupKey)
    requires events != [] && IsFromFetch(events[..|events| - 1], cache, key)
    requires !(key in cache && cache[key].Fetched?) && FetchEnds(events, |events| - 1, key)
    ensures OnlyFetch(events, |events| - 1, key, events[|events| - 1].cfi)
  {
    var n := |events| - 1;
    forall j | j < n ensures !FetchEnds(events, j, key) {
      FetchEndsEarlier(events, j, key);
    }
  }

  lemma {:induction false} FetchedByOneFetch(events: seq<Event>, key: LookupKey)
    requires Run(events).Some?
    ensures IsFromFetch(events, Run(events).value.cache, key)
  {
    if events != [] {
      var n := |events| - 1;
      FetchedByOneFetch(events[..n], key);
      RunKeepsInv(events[..n]);
      var s := Run(events[..n]).value;
      if FetchEnds(events, n, key) {
        assert CallAgrees(s, s.calls[events[n].call]);
        FirstFetchEnds(events, s.cache, key);
      } else {
        OtherEventKeeps(events, s.cache, key);
        UnfetchedStays(s, events[n], key);
      }
    }
  }

  /** Only the end of a fetch for a key makes it fetched. */
  lemma UnfetchedStays(s: State, e: Event, key: LookupKey)
    requires Enabled(s, e) && !(e.Complete? && s.calls[e.call].key == key)
    ensures var s' := Next(s, e);
      && (key in s'.cache && s'.cache[key].Fetched? <==> key in s.cache && s.cache[key].Fetched?)
      && (key in s.cache && s.cache[key].Fetched? ==> s'.cache[key] == s.cache[key])
  {
  }

  /** The value that a call returns is what the fetch for its key returned: in every run in which a
      call has returned, exactly one fetch for its key has ended, with this very value. */
  lemma CallerGetsFetched(events: seq<Event>, t: nat)
    requires Run(events).Some?
    requires t < |Run(events).value.calls| && Run(events).value.calls[t].phase.Done?
    ensures var call := Run(events).value.calls[t];
      exists i :: OnlyFetch(events, i, call.key, call.phase.cfi)
  {
    RunKeepsInv(events);
    assert CallAgrees(Run(events).value, Run(events).value.calls[t]);
    FetchedByOneFetch(events, Run(events).value.calls[t].key);
  }

  // ---------------------------------------------------------------------------------------------
  // Liveness

  /** A waiter always has a fetcher that will fire the very notifier it waits on. */
  lemma WaiterHasFetcher(events: seq<Event>, t: nat, cfi: Cfi) returns (u: nat)
    requires Run(events).Some?
    requires t < |Run(events).value.calls| && Run(events).value.calls[t].phase.Waiting?
    ensures Enabled(Run(events).value, Complete(u, cfi))
    ensures Next(Run(events).value, Complete(u, cfi)).calls[t].phase == Woken
  {
    RunKeepsInv(events);
    var s := Run(events).value;
    assert CallAgrees(s, s.calls[t]);
    assert HasFetcher(s, s.calls[t].key);
    u :| 0 <= u < |s.calls| && s.calls[u] == Call(s.calls[t].key, InFetch);
  }

  ghost predicate AllDone(s: State) {
    forall t :: 0 <= t < |s.calls| ==> s.calls[t].phase.Done?
  }

  /** Deadlock freedom: while a call is unfinished, some call can take a step. */
  lemma NeverStuck(events: seq<Event>, cfi: Cfi) returns (e: Event)
    requires Run(events).Some? && !AllDone(Run(events).value)
    ensures !e.Begin? && Enabled(Run(events).value, e)
  {
    var s := Run(events).value;
    var t :| 0 <= t < |s.calls| && !s.calls[t].phase.Done?;
    match s.calls[t].phase
    case Starting | Woken =>
      e := Poll(t);
    case InFetch =>
      e := Complete(t, cfi);
    case Waiting(_) =>
      var u := WaiterHasFetcher(events, t, cfi);
      e := Complete(u, cfi);
  }

  /** How many more steps of its own a call can take. */
  function Rank(p: Phase): nat {
    match p
    case Starting => 2
    case Waiting(_) | Woken | InFetch => 1
    case Done(_) => 0
  }

  function Measure(calls: seq<Call>): nat {
    if calls == [] then 0 else Measure(calls[..|calls| - 1]) + Rank(calls[|calls| - 1].phase)
  }

  lemma {:induction false} MeasureUpdate(calls: seq<Call>, t: nat, c: Call)
    requires t < |calls|
    ensures Measure(calls[t := c]) == Measure(calls) - Rank(calls[t].phase) + Rank(c.phase)
  {
    var n := |calls| - 1;
    if t == n {
      assert calls[t := c][..n] == calls[..n];
    } else {
      assert calls[t := c][..n] == calls[..n][t := c];
      MeasureUpdate(calls[..n], t, c);
    }
  }

  lemma {:induction false} MeasureWake(calls: seq<Call>, notify: nat)
    ensures Measure(WakeAll(calls, notify)) == Measure(calls)
  {
    if calls != [] {
      var n := |calls| - 1;
      assert WakeAll(calls, notify)[..n] == WakeAll(calls[..n], notify);
      MeasureWake(calls[..n], notify);
    }
  }

  /** Every step of a call lowers the measure; only a new call raises it, by 2. */
  lemma StepLowersMeasure(s: State, e: Event)
    requires Inv(s) && Enabled(s, e)
    ensures e.Begin? ==> Measure(Next(s, e).calls) == Measure(s.calls) + 2
    ensures !e.Begin? ==> Measure(Next(s, e).calls) < Measure(s.calls)
  {
    match e
    case Begin(key) =>
      assert Next(s, e).calls[..|s.calls|] == s.calls;
    case Poll(t) =>
      assert CallAgrees(s, s.calls[t]);
      MeasureUpdate(s.calls, t, Next(s, e).calls[t]);
    case Complete(t, cfi) =>
      var key := s.calls[t].key;
      assert CallAgrees(s, s.calls[t]);
      var woken := WakeAll(s.calls, s.cache[key].notify);
      MeasureWake(s.calls, s.cache[key].notify);
      MeasureUpdate(woken, t, Call(key, Done(cfi)));
  }

  function Begins(events: seq<Event>): nat {
    if events == [] then 0
    else Begins(events[..|events| - 1]) + if events[|events| - 1].Begin? then 1 else 0
  }

  /** No run can starve: after `n` calls at most `2 * n` further steps are possible. */
  lemma {:induction false} RunsAreBounded(events: seq<Event>)
    requires Run(events).Some?
    ensures |Run(events).value.calls| == Begins(events) <= |events|
    ensures |events| - Begins(events) + Measure(Run(events).value.calls) <= 2 * Begins(events)
  {
    if events != [] {
      var n := |events| - 1;
      RunsAreBounded(events[..n]);
      RunKeepsInv(events[..n]);
      StepLowersMeasure(Run(events[..n]).value, events[n]);
    }
  }

  /** When all calls have returned, the map holds exactly the requested keys, all fetched, each
      with the value its callers got. */
  lemma QuiescentMap(events: seq<Event>)
    requires Run(events).Some? && AllDone(Run(events).value)
    ensures var s := Run(events).value;
      && (forall k :: k in s.cache <==> Requested(s, k))
      && (forall k :: k in s.cache ==> s.cache[k].Fetched?)
      && (forall t :: 0 <= t < |s.calls| ==> s.cache[s.calls[t].key] == Fetched(s.calls[t].phase.cfi))
  {
    RunKeepsInv(events);
    var s := Run(events).value;
    forall t | 0 <= t < |s.calls|
      ensures s.calls[t].key in s.cache && s.cache[s.calls[t].key] == Fetched(s.calls[t].phase.cfi)
    {
      assert CallAgrees(s, s.calls[t]);
    }
    forall k | k in s.cache ensures s.cache[k].Fetched? {
      assert s.cache[k].Fetching? ==> HasFetcher(s, k);
    }
  }

  // ---------------------------------------------------------------------------------------------
  // The loader itself

  /** The symbol provider of one minidump, together with the loader calls joined on it. */
  class SymbolProvider {
    var cficaches: map<LookupKey, LazyCfiCache>
    var calls: seq<Call>
    var notifiers: nat
    ghost var fetches: seq<LookupKey>

    ghost function View(): State
      reads this
    {
      State(cficaches, calls, notifiers, fetches)
    }

    constructor ()
      ensures View() == Init()
    {
      cficaches, calls, notifiers, fetches := map[], [], 0, [];
    }

    method BeginLoad(key: LookupKey) returns (t: nat)
      modifies this
      ensures Enabled(old(View()), Begin(key)) && View() == Next(old(View()), Begin(key))
      ensures t == |old(calls)|
    {
      t := |calls|;
      calls := calls + [Call(key, Starting)];
    }

    /** One turn of the lookup loop, up to its next await or its return. */
    method PollLoad(t: nat)
      requires Enabled(View(), Poll(t))
      modifies this
      ensures View() == Next(old(View()), Poll(t))
    {
      var key := calls[t].key;
      var entry := if key in cficaches then Some(cficaches[key]) else None;
      match entry {
        case Some(Fetched(cfi)) =>
          calls := calls[t := Call(key, Done(cfi))];
        case Some(Fetching(notify)) =>
          calls := calls[t := Call(key, Waiting(notify))];
        case None =>
          cficaches := cficaches[key := Fetching(notifiers)];
          notifiers := notifiers + 1;
          fetches := fetches + [key];
          calls := calls[t := Call(key, InFetch)];
      }
    }

    /** The fetch has returned `cfi`: publish it and wake the waiters. */
    method CompleteLoad(t: nat, cfi: Cfi)
      requires Enabled(View(), Complete(t, cfi))
      modifies this
      ensures View() == Next(old(View()), Complete(t, cfi))
    {
      var key := calls[t].key;
      var previous := if key in cficaches then Some(cficaches[key]) else None;
      cficaches := cficaches[key := Fetched(cfi)];
      if previous.Some? && previous.value.Fetching? {
        NotifyWaiters(previous.value.notify);
      }
      calls := calls[t := Call(key, Done(cfi))];
    }

    method NotifyWaiters(notify: nat)
      modifies `calls
      ensures calls == WakeAll(old(calls), notify)
    {
      var i := 0;
      while i < |calls|
        invariant 0 <= i <= |calls| == |old(calls)|
        invariant forall j :: 0 <= j < i ==> calls[j] == Wake(old(calls)[j], notify)
        invariant forall j :: i <= j < |calls| ==> calls[j] == old(calls)[j]
      {
        calls := calls[i := Wake(calls[i], notify)];
        i := i + 1;
      }
    }
  }

  // ---------------------------------------------------------------------------------------------
  // After the walk

  /** A module of the minidump; `hasId` says whether it has a debug or a code identifier. */
  datatype Module = Module(key: LookupKey, hasId: bool)

  /** A module of the response: its position in the minidump and the CFI it was unwound with. */
  datatype UsedModule = UsedModule(index: nat, unwind: Option<Cfi>)

  predicate FirstOfKey(modules: seq<Module>, i: nat)
    requires i < |modules|
  {
    forall j :: 0 <= j < i ==> modules[j].key != modules[i].key
  }

  /** What module `i` becomes: it is dropped when it was not used in the walk and has no
      identifier, and of several modules with one key only the first takes the entry. */
  function Used(modules: seq<Module>, cache: map<LookupKey, LazyCfiCache>, i: nat): Option<UsedModule>
    requires i < |modules|
  {
    var key := modules[i].key;
    if key in cache && FirstOfKey(modules, i) then
      Some(UsedModule(i, if cache[key].Fetched? then Some(cache[key].cfi) else None))
    else if modules[i].hasId then Some(UsedModule(i, None))
    else None
  }

  function UsedUpTo(modules: seq<Module>, cache: map<LookupKey, LazyCfiCache>, n: nat): seq<UsedModule>
    requires n <= |modules|
  {
    if n == 0 then []
    else
      UsedUpTo(modules, cache, n - 1) +
      match Used(modules, cache, n - 1) { case Some(m) => [m] case None => [] }
  }

  /** Builds the module list of the response, taking each entry out of the map as it is used. */
  method CollectModules(modules: seq<Module>, cache: map<LookupKey, LazyCfiCache>)
    returns (out: seq<UsedModule>)
    ensures out == UsedUpTo(modules, cache, |modules|)
  {
    var remaining := cache;
    out := [];
    for i := 0 to |modules|
      invariant forall k :: k in remaining ==> k in cache && remaining[k] == cache[k]
      invariant forall k :: k in cache ==>
        (k in remaining <==> forall j :: 0 <= j < i ==> modules[j].key != k)
      invariant out == UsedUpTo(modules, cache, i)
    {
      var key := modules[i].key;
      assert key in remaining <==> key in cache && FirstOfKey(modules, i);
      if key !in remaining && !modules[i].hasId {
        continue;
      }
      if key in remaining {
        var entry := remaining[key];
        remaining := remaining - {key};
        out := out + [UsedModule(i, if entry.Fetched? then Some(entry.cfi) else None)];
      } else {
        out := out + [UsedModule(i, None)];
      }
    }
  }

  /** After a finished walk, every CFI that was fetched for a module of the minidump reaches the
      response, under the first module with its key and under no other. */
  lemma {:induction false} FetchedReachesResponse(modules: seq<Module>, cache: map<LookupKey, LazyCfiCache>,
    n: nat, i: nat)
    requires i < n <= |modules|
    requires modules[i].key in cache && cache[modules[i].key].Fetched? && FirstOfKey(modules, i)
    ensures UsedModule(i, Some(cache[modules[i].key].cfi)) in UsedUpTo(modules, cache, n)
    ensures forall m :: m in UsedUpTo(modules, cache, n) && m.unwind.Some? ==>
      m.index < n && (modules[m.index].key == modules[i].key ==> m.index == i)
  {
    if i < n - 1 {
      FetchedReachesResponse(modules, cache, n - 1, i);
    } else {
      IndicesBelow(modules, cache, n - 1);
    }
  }

  predicate HasModule(out: seq<UsedModule>, i: nat) {
    exists k :: 0 <= k < |out| && out[k].index == i
  }

  /** The response has, in order and once each, the modules with an identifier and the first module
      of every key that was used in the walk. */
  lemma {:induction false} ResponseModules(modules: seq<Module>, cache: map<LookupKey, LazyCfiCache>, n: nat)
    requires n <= |modules|
    ensures var out := UsedUpTo(modules, cache, n);
      && (forall k :: 0 <= k < |out| ==> out[k].index < n)
      && (forall k, l :: 0 <= k < l < |out| ==> out[k].index < out[l].index)
      && forall i: nat :: i < n ==>
           (HasModule(out, i) <==> modules[i].hasId || (modules[i].key in cache && FirstOfKey(modules, i)))
  {
    if n > 0 {
      ResponseModules(modules, cache, n - 1);
      var init, out := UsedUpTo(modules, cache, n - 1), UsedUpTo(modules, cache, n);
      forall i: nat | i < n - 1 ensures HasModule(out, i) <==> HasModule(init, i) {
        if k :| 0 <= k < |init| && init[k].index == i {
          assert out[k].index == i;
        }
      }
      if Used(modules, cache, n - 1).Some? {
        assert out[|init|].index == n - 1;
      }
    }
  }

  lemma {:induction false} IndicesBelow(modules: seq<Module>, cache: map<LookupKey, LazyCfiCache>, n: nat)
    requires n <= |modules|
    ensures forall m :: m in UsedUpTo(modules, cache, n) ==> m.index < n
  {
    if n > 0 {
      IndicesBelow(modules, cache, n - 1);
    }
  }
}
