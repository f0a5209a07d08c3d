/**
 Runs of the configuration protocol after users and failures have stopped: every one of
 them that does not put the watch events off forever comes to rest in agreement.
 */
module ConfigDraining {
  import opened Results
  import opened ObjectKeys
  import opened ConfigProtocol

  /** A delivery, a worker's step without a failing call or controller, or a retry. */
  predicate Works(s: State, a: Action) {
    !ByUser(a) && Enabled(s, a) && (a.WorkerActs? ==> !a.createFails && a.failsAt >= |s.controllers|)
  }

  predicate Resting(s: State) {
    s.stream == [] && s.dirty == {} && s.retry == {} && s.phases == map[]
  }

  ghost predicate WorksAt(run: nat -> State, n: nat) {
    exists a :: Works(run(n), a) && run(n + 1) == Next(run(n), a)
  }

  ghost predicate GoesOn(run: nat -> State, n: nat) {
    Resting(run(n)) || WorksAt(run, n)
  }

  predicate DeliversAt(run: nat -> State, n: nat) {
    run(n).stream != [] && run(n + 1) == Delivered(run(n))
  }

  ghost predicate DeliversAfter(run: nat -> State, n: nat) {
    run(n).stream != [] ==> exists m :: m >= n && DeliversAt(run, m)
  }

  /** The run goes on until it rests, and an undelivered event is not put off forever. */
  ghost predicate Fair(run: nat -> State) {
    forall n: nat :: GoesOn(run, n) && DeliversAfter(run, n)
  }

  // ------------------------------------------------------------------------ measures

  /** Events on their way and those the controller may still cause: recreating the configuration causes one. */
  function Events(s: State, name: string): nat {
    |s.stream| + if name in s.api then 0 else 2
  }

  function Unfinished(s: State): set<string> {
    set k | k in s.phases && !s.phases[k].Finished?
  }

  function Unread(s: State): set<string> {
    set k | k in s.phases && s.phases[k].Taken?
  }

  /** A worker that missed the configuration in an old cache fails to recreate it and comes back for a retry. */
  function Misread(s: State, name: string): nat {
    if name in s.phases && s.phases[name] == Seen(None) && name in s.api then 5 else 0
  }

  /** The worker steps that are left while no event comes in. */
  function Load(s: State, name: string): nat {
    5 * |s.retry| + 4 * |s.dirty| + |s.phases| + |Unfinished(s)| + |Unread(s)| + Misread(s, name)
  }

  lemma TakeLightens(s: State, key: string, name: string)
    requires key in s.dirty && key !in s.phases
    ensures Load(Take(s, key), name) < Load(s, name)
  {
    var s' := Take(s, key);
    TakeCounts(s.phases, key);
    Grown(Unfinished(s'), Unfinished(s), key);
    Grown(Unread(s'), Unread(s), key);
    Grown(s.dirty, s'.dirty, key);
    assert Misread(s', name) <= Misread(s, name);
  }

  lemma TakeCounts(phases: map<string, Phase>, key: string)
    requires key !in phases
    ensures |phases[key := Taken]| == |phases| + 1
  {
    var phases' := phases[key := Taken];
    Grown(phases'.Keys, phases.Keys, key);
    assert |phases'| == |phases'.Keys| && |phases| == |phases.Keys|;
  }

  lemma Grown(a: set<string>, b: set<string>, key: string)
    requires key !in b && forall k :: k in a <==> k in b || k == key
    ensures |a| == |b| + 1
  {
    assert a == b + {key};
  }

  lemma ReadLightens(s: State, key: string, name: string)
    requires Inv(s, name) && s.stream == []
    requires key in s.phases && s.phases[key].Taken?
    ensures Load(Read(s, key), name) < Load(s, name)
  {
    var s' := Read(s, key);
    assert ValidName(key);
    ClusterKeyRoundTrip(key);
    assert s'.phases.Keys == s.phases.Keys;
    assert |s'.phases| == |s.phases|;
    assert Unfinished(s') == Unfinished(s);
    assert key in Unread(s) && Unread(s') == Unread(s) - {key};
  }

  lemma DoneLightens(s: State, key: string, name: string)
    requires key in s.phases && s.phases[key].Finished?
    ensures Load(Done(s, key), name) < Load(s, name)
  {
    var s' := Done(s, key);
    assert s'.phases.Keys == s.phases.Keys - {key};
    assert |s'.phases| == |s.phases| - 1;
    assert Unfinished(s') == Unfinished(s);
    assert Unread(s') == Unread(s);
  }

  lemma RetryLightens(s: State, key: string, name: string)
    requires key in s.retry
    ensures Load(Retried(s, key), name) < Load(s, name)
  {
    var s' := Retried(s, key);
    assert |s'.retry| == |s.retry| - 1;
    assert |s'.dirty| <= |s.dirty| + 1;
  }

  /** An act without failures goes wrong only for a worker that misread. */
  lemma ActErrsOnlyOnMisreading(s: State, key: string, name: string, failsAt: nat)
    requires Inv(s, name) && key in s.phases && s.phases[key].Seen? && failsAt >= |s.controllers|
    ensures SyncErrs(s, key, s.phases[key].found, false, failsAt) ==> key == name && Misread(s, name) == 5
  {
    assert ValidName(key);
    ClusterKeyRoundTrip(key);
  }

  lemma ActLightens(s: State, key: string, name: string, failsAt: nat)
    requires Inv(s, name) && key in s.phases && s.phases[key].Seen? && failsAt >= |s.controllers|
    requires Act(s, key, s.phases[key].found, false, failsAt).api == s.api
    ensures Load(Act(s, key, s.phases[key].found, false, failsAt), name) < Load(s, name)
  {
    var s' := Act(s, key, s.phases[key].found, false, failsAt);
    ActErrsOnlyOnMisreading(s, key, name, failsAt);
    assert s'.dirty == s.dirty && s'.phases == s.phases[key := Finished];
    FinishLightens(s, s', key, name);
  }

  lemma FinishLightens(s: State, s': State, key: string, name: string)
    requires key in s.phases && s.phases[key].Seen?
    requires s'.phases == s.phases[key := Finished] && s'.dirty == s.dirty && s'.api == s.api
    requires s'.retry == s.retry || (s'.retry == s.retry + {key} && key == name && Misread(s, name) == 5)
    ensures Load(s', name) < Load(s, name)
  {
    assert s'.phases.Keys == s.phases.Keys;
    assert |s'.phases| == |s'.phases.Keys| && |s.phases| == |s.phases.Keys|;
    Grown(Unfinished(s), Unfinished(s'), key);
    assert Unread(s') == Unread(s);
    assert |s'.retry| <= |s.retry| + if s'.retry == s.retry then 0 else 1;
    assert key == name ==> Misread(s', name) == 0;
  }

  // ------------------------------------------------------------------------- progress

  /** What one step does for both measures: events never become more, and without events the load becomes less. */
  predicate Progress(s: State, s': State, name: string) {
    && Events(s', name) <= Events(s, name)
    && (s.stream == [] && Events(s', name) == Events(s, name) ==> s'.stream == [] && Load(s', name) < Load(s, name))
  }

  lemma ActProgresses(s: State, a: Action, name: string)
    requires Inv(s, name) && Works(s, a) && a.WorkerActs?
    ensures Progress(s, Next(s, a), name)
  {
    var s' := Next(s, a);
    ClusterKeyRoundTrip(name);
    if s'.api == s.api {
      assert s'.stream == s.stream;
      ActLightens(s, a.key, name, a.failsAt);
    } else {
      assert s'.api == s.api[name := s.memory.(version := s.nextVersion)] && name !in s.api;
      assert |s'.stream| == |s.stream| + 1;
    }
  }

  lemma StepProgresses(s: State, a: Action, name: string)
    requires Inv(s, name) && Works(s, a)
    ensures Inv(Next(s, a), name)
    ensures Progress(s, Next(s, a), name)
    ensures a.WatchDelivers? ==> Events(Next(s, a), name) < Events(s, name)
  {
    NextKeepsInv(s, a, name);
    match a {
      case WatchDelivers =>
      case WorkerTakes(key) => TakeLightens(s, key, name);
      case WorkerReads(key) =>
        if s.stream == [] {
          ReadLightens(s, key, name);
        }
      case WorkerActs(_, _, _) => ActProgresses(s, a, name);
      case WorkerDone(key) => DoneLightens(s, key, name);
      case RetryFires(key) => RetryLightens(s, key, name);
    }
  }

  lemma RunProgresses(run: nat -> State, name: string, n: nat)
    requires Inv(run(n), name) && WorksAt(run, n)
    ensures Inv(run(n + 1), name) && Progress(run(n), run(n + 1), name)
  {
    var a :| Works(run(n), a) && run(n + 1) == Next(run(n), a);
    StepProgresses(run(n), a, name);
  }

  /** Up to a later moment, or to rest before it, the events do not become more. */
  lemma {:induction false} EventsNeverGrow(run: nat -> State, name: string, n: nat, m: nat) returns (j: nat)
    requires Fair(run) && n <= m && Inv(run(n), name)
    ensures n <= j <= m && (Resting(run(j)) || j == m)
    ensures Inv(run(j), name) && Events(run(j), name) <= Events(run(n), name)
    decreases m - n
  {
    if n == m || Resting(run(n)) {
      j := n;
    } else {
      assert GoesOn(run, n);
      RunProgresses(run, name, n);
      j := EventsNeverGrow(run, name, n + 1, m);
    }
  }

  lemma RestIsAgreed(s: State, name: string)
    requires Inv(s, name) && Resting(s)
    ensures Agreed(s, name)
  {
    assert Settled(s, name);
  }

  lemma DeliveryLowers(run: nat -> State, name: string, m: nat)
    requires Inv(run(m), name) && DeliversAt(run, m)
    ensures Inv(run(m + 1), name) && Events(run(m + 1), name) < Events(run(m), name)
  {
    StepProgresses(run(m), WatchDelivers, name);
  }

  lemma NextDelivery(run: nat -> State, n: nat) returns (m: nat)
    requires Fair(run) && run(n).stream != []
    ensures m >= n && DeliversAt(run, m)
  {
    assert DeliversAfter(run, n);
    m :| m >= n && DeliversAt(run, m);
  }

  /** With an event on its way, a fair run comes to rest or to fewer events. */
  lemma DeliveryAhead(run: nat -> State, name: string, n: nat) returns (k: nat)
    requires Fair(run) && Inv(run(n), name) && run(n).stream != []
    ensures k >= n && Inv(run(k), name)
    ensures Resting(run(k)) || Events(run(k), name) < Events(run(n), name)
  {
    var m := NextDelivery(run, n);
    k := EventsNeverGrow(run, name, n, m);
    if !Resting(run(k)) {
      DeliveryLowers(run, name, m);
      k := m + 1;
    }
  }

  /** With no event on its way, a fair run that does not rest has less work left after one step. */
  lemma StepAhead(run: nat -> State, name: string, n: nat)
    requires Fair(run) && Inv(run(n), name) && run(n).stream == [] && !Resting(run(n))
    ensures Inv(run(n + 1), name) && Progress(run(n), run(n + 1), name)
  {
    assert GoesOn(run, n);
    RunProgresses(run, name, n);
  }

  lemma {:induction false} FairRunComesToRest(run: nat -> State, name: string, n: nat) returns (m: nat)
    requires Fair(run) && Inv(run(n), name)
    ensures m >= n && Resting(run(m)) && Inv(run(m), name)
    decreases Events(run(n), name), if run(n).stream == [] then Load(run(n), name) else 0
  {
    if Resting(run(n)) {
      m := n;
    } else if run(n).stream == [] {
      StepAhead(run, name, n);
      m := FairRunComesToRest(run, name, n + 1);
    } else {
      m := DeliveryAhead(run, name, n);
      if !Resting(run(m)) {
        m := FairRunComesToRest(run, name, m);
      }
    }
  }

  /**
   Whatever users did and whatever failed before: once that stops, every fair continuation
   of the run comes to rest, and the API server then holds the spec in memory.
   */
  lemma FairRunsDrain(past: seq<State>, actions: seq<Action>, name: string, run: nat -> State)
    requires IsRun(past, actions) && Initial(past[0], name)
    requires run(0) == past[|past| - 1] && Fair(run)
    ensures exists m :: Resting(run(m)) && Agreed(run(m), name)
  {
    RunKeepsInv(past, actions, name, |past| - 1);
    var m := FairRunComesToRest(run, name, 0);
    RestIsAgreed(run(m), name);
  }
}
