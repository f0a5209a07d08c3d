/** The displayed status of a pod, computed by two loops over container statuses. */
module PodStatus {
  import opened Results
  import opened Text
  import opened Pods

  const TERMINATING := "Terminating"

  predicate InitDone(c: ContainerStatus) {
    c.terminated.Some? && c.terminated.value.exitCode == 0
  }

  /** Container i is the first init container that has not terminated with exit code zero. */
  predicate FirstOutstanding(inits: seq<ContainerStatus>, i: int) {
    0 <= i < |inits| && !InitDone(inits[i]) && forall k :: 0 <= k < i ==> InitDone(inits[k])
  }

  predicate AllInitDone(inits: seq<ContainerStatus>) {
    forall k :: 0 <= k < |inits| ==> InitDone(inits[k])
  }

  function TerminatedReason(t: Terminated): string {
    if t.reason != "" then t.reason
    else if t.signal != 0 then "Signal:" + FormatInt(t.signal)
    else "ExitCode:" + FormatInt(t.exitCode)
  }

  /** What an outstanding init container at index i of n makes the status. */
  function InitReason(c: ContainerStatus, i: nat, n: nat): string {
    "Init:" + (
      if c.terminated.Some? then TerminatedReason(c.terminated.value)
      else if c.waiting.Some? && c.waiting.value != "" && c.waiting.value != "PodInitializing" then c.waiting.value
      else Itoa(i) + "/" + Itoa(n))
  }

  /** The status a container's state sets, if it sets one. */
  function StateReason(c: ContainerStatus): Option<string> {
    if c.waiting.Some? && c.waiting.value != "" then c.waiting
    else if c.terminated.Some? then Some(TerminatedReason(c.terminated.value))
    else None
  }

  /** The lowest-indexed container with a status-setting state decides, and otherwise the phase does. */
  function MainReason(statuses: seq<ContainerStatus>, phase: string): string {
    if statuses == [] then phase
    else if StateReason(statuses[0]).Some? then StateReason(statuses[0]).value
    else MainReason(statuses[1..], phase)
  }

  predicate ReportsRunning(c: ContainerStatus) {
    StateReason(c).None? && c.ready && c.running
  }

  function RunningReason(statuses: seq<ContainerStatus>, phase: string): string {
    var reason := MainReason(statuses, phase);
    if reason == "Completed" && exists k :: 0 <= k < |statuses| && ReportsRunning(statuses[k]) then "Running"
    else reason
  }

  /** The declarative form of the status: the deletion mark, then init containers, then containers. */
  ghost predicate IsPodStatus(pod: Status, reason: string) {
    if pod.deleted then reason == TERMINATING
    else if AllInitDone(pod.initStatuses) then reason == RunningReason(pod.statuses, pod.phase)
    else exists i: nat :: FirstOutstanding(pod.initStatuses, i)
                       && reason == InitReason(pod.initStatuses[i], i, pod.initContainers)
  }

  method GetPodStatus(pod: Status) returns (reason: string)
    ensures IsPodStatus(pod, reason)
  {
    reason := pod.phase;
    var initializing := false;
    var i := 0;
    while i < |pod.initStatuses|
      invariant 0 <= i <= |pod.initStatuses|
      invariant forall k :: 0 <= k < i ==> InitDone(pod.initStatuses[k])
      invariant !initializing && reason == pod.phase
    {
      var container := pod.initStatuses[i];
      if container.terminated.Some? && container.terminated.value.exitCode == 0 {
        i := i + 1;
        continue;
      } else if container.terminated.Some? {
        if |container.terminated.value.reason| == 0 {
          if container.terminated.value.signal != 0 {
            reason := "Init:" + ("Signal:" + FormatInt(container.terminated.value.signal));
          } else {
            reason := "Init:" + ("ExitCode:" + FormatInt(container.terminated.value.exitCode));
          }
        } else {
          reason := "Init:" + container.terminated.value.reason;
        }
        initializing := true;
      } else if container.waiting.Some? && |container.waiting.value| > 0
          && container.waiting.value != "PodInitializing" {
        reason := "Init:" + container.waiting.value;
        initializing := true;
      } else {
        reason := "Init:" + (Itoa(i) + "/" + Itoa(pod.initContainers));
        initializing := true;
      }
      assert FirstOutstanding(pod.initStatuses, i) && reason == InitReason(container, i, pod.initContainers);
      break;
    }
    if !initializing {
      var hasRunning := false;
      i := |pod.statuses| - 1;
      while i >= 0
        invariant -1 <= i < |pod.statuses|
        invariant reason == MainReason(pod.statuses[i + 1..], pod.phase)
        invariant hasRunning <==> exists k :: i < k < |pod.statuses| && ReportsRunning(pod.statuses[k])
      {
        var container := pod.statuses[i];
        assert pod.statuses[i..][1..] == pod.statuses[i + 1..];
        if container.waiting.Some? && container.waiting.value != "" {
          reason := container.waiting.value;
        } else if container.terminated.Some? && container.terminated.value.reason != "" {
          reason := container.terminated.value.reason;
        } else if container.terminated.Some? && container.terminated.value.reason == "" {
          if container.terminated.value.signal != 0 {
            reason := "Signal:" + FormatInt(container.terminated.value.signal);
          } else {
            reason := "ExitCode:" + FormatInt(container.terminated.value.exitCode);
          }
        } else if container.ready && container.running {
          hasRunning := true;
        }
        i := i - 1;
      }
      assert pod.statuses[0..] == pod.statuses;
      if reason == "Completed" && hasRunning {
        reason := "Running";
      }
    }
    if pod.deleted {
      reason := TERMINATING;
    }
  }

  // --------------------------------------------------- laws of the declarative form

  lemma {:induction false} OutstandingExists(inits: seq<ContainerStatus>)
    ensures AllInitDone(inits) <==> forall i :: !FirstOutstanding(inits, i)
  {
    if !AllInitDone(inits) && (forall i :: !FirstOutstanding(inits, i)) {
      var k := 0;
      while k < |inits| && InitDone(inits[k])
        invariant 0 <= k <= |inits|
        invariant forall l :: 0 <= l < k ==> InitDone(inits[l])
      {
        k := k + 1;
      }
      assert FirstOutstanding(inits, k);
    }
  }

  /** Every pod has exactly one status. */
  lemma StatusIsUnique(pod: Status)
    ensures exists reason :: IsPodStatus(pod, reason)
    ensures forall r1, r2 :: IsPodStatus(pod, r1) && IsPodStatus(pod, r2) ==> r1 == r2
  {
    OutstandingExists(pod.initStatuses);
    if pod.deleted {
      assert IsPodStatus(pod, TERMINATING);
    } else if AllInitDone(pod.initStatuses) {
      assert IsPodStatus(pod, RunningReason(pod.statuses, pod.phase));
    } else {
      var i :| FirstOutstanding(pod.initStatuses, i);
      assert IsPodStatus(pod, InitReason(pod.initStatuses[i], i, pod.initContainers));
      assert forall k :: FirstOutstanding(pod.initStatuses, k) ==> k == i;
    }
  }

  /**
   A pod counts as terminating exactly when it is marked deleted, or no init
   container is outstanding and the derived reason happens to be that word.
   */
  lemma TerminatingCharacterised(pod: Status, reason: string)
    requires IsPodStatus(pod, reason)
    ensures reason == TERMINATING <==>
              pod.deleted
              || (AllInitDone(pod.initStatuses) && MainReason(pod.statuses, pod.phase) == TERMINATING)
  {
    if !pod.deleted && !AllInitDone(pod.initStatuses) {
      assert reason[0] == 'I' && TERMINATING[0] == 'T';
    }
  }

  /** MainReason names the lowest-indexed container that sets a status, or the phase when none does. */
  lemma {:induction false} MainReasonIsLowest(statuses: seq<ContainerStatus>, phase: string, i: nat)
    requires i < |statuses| ==> StateReason(statuses[i]).Some?
    requires i <= |statuses|
    requires forall k :: 0 <= k < i ==> StateReason(statuses[k]).None?
    ensures MainReason(statuses, phase) == if i < |statuses| then StateReason(statuses[i]).value else phase
  {
    if i > 0 {
      assert forall k :: 0 <= k < i - 1 ==> statuses[1..][k] == statuses[k + 1];
      MainReasonIsLowest(statuses[1..], phase, i - 1);
    }
  }

  /**
   What a failed init container shows: its reason if it has one, else its signal if it has
   one, else its exit code.
   */
  lemma FailedInitShows(pod: Status, i: nat, t: Terminated, reason: string)
    requires IsPodStatus(pod, reason) && !pod.deleted
    requires i < |pod.initStatuses| && pod.initStatuses[i].terminated == Some(t) && t.exitCode != 0
    requires forall k :: 0 <= k < i ==> InitDone(pod.initStatuses[k])
    ensures t.reason != "" ==> reason == "Init:" + t.reason
    ensures t.reason == "" && t.signal != 0 ==> reason == "Init:" + ("Signal:" + FormatInt(t.signal))
    ensures t.reason == "" && t.signal == 0 ==> reason == "Init:" + ("ExitCode:" + FormatInt(t.exitCode))
  {
    assert FirstOutstanding(pod.initStatuses, i);
    assert forall k :: FirstOutstanding(pod.initStatuses, k) ==> k == i;
  }

  /**
   A pod whose init containers are done shows what its lowest-indexed container with a waiting
   reason or a termination shows, and its phase when it has none.
   */
  lemma ContainersShow(pod: Status, i: nat, reason: string)
    requires IsPodStatus(pod, reason) && !pod.deleted && AllInitDone(pod.initStatuses)
    requires i <= |pod.statuses|
    requires forall k :: 0 <= k < i ==> ShowsNothing(pod.statuses[k])
    requires i < |pod.statuses| ==> !ShowsNothing(pod.statuses[i])
    ensures var shown := if i == |pod.statuses| then pod.phase else Shown(pod.statuses[i]);
            var running := exists k :: 0 <= k < |pod.statuses| && ShowsNothing(pod.statuses[k])
                                   && pod.statuses[k].ready && pod.statuses[k].running;
            reason == if shown == "Completed" && running then "Running" else shown
  {
    MainReasonIsLowest(pod.statuses, pod.phase, i);
    assert forall k :: 0 <= k < |pod.statuses| ==>
      (ReportsRunning(pod.statuses[k]) <==>
         ShowsNothing(pod.statuses[k]) && pod.statuses[k].ready && pod.statuses[k].running);
  }

  predicate ShowsNothing(c: ContainerStatus) {
    (c.waiting == None || c.waiting == Some("")) && c.terminated == None
  }

  function Shown(c: ContainerStatus): string
    requires !ShowsNothing(c)
  {
    if c.waiting.Some? && c.waiting.value != "" then c.waiting.value
    else if c.terminated.value.reason != "" then c.terminated.value.reason
    else if c.terminated.value.signal != 0 then "Signal:" + FormatInt(c.terminated.value.signal)
    else "ExitCode:" + FormatInt(c.terminated.value.exitCode)
  }
}
