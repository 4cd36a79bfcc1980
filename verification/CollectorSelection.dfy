/** Choosing GPU collectors by priority: one source per vendor group, with nvtop as a stand-in
    that falls back to the remaining priorities when it fails. */
module CollectorSelection {
  import opened Basics

  datatype Source = NVTop | NVML | NvidiaSMI | IntelGpuTop | AmdSysfs | RocmSMI

  datatype Group = Nvidia | Intel | Amd

  function GroupOf(s: Source): Option<Group> {
    match s
    case NVTop => None
    case NVML => Some(Nvidia)
    case NvidiaSMI => Some(Nvidia)
    case IntelGpuTop => Some(Intel)
    case AmdSysfs => Some(Amd)
    case RocmSMI => Some(Amd)
  }

  /** Tools found on the host. NVML counts as available and may fail to start instead, each
      time it is tried; the positions at which it would start are given. */
  datatype Host = Host(tools: set<Source>, nvmlStarts: set<nat>)

  predicate Available(host: Host, s: Source) {
    s.NVML? || s in host.tools
  }

  predicate Starts(host: Host, s: Source, position: nat) {
    s.NVML? ==> position in host.nvmlStarts
  }

  /** What a pass over the priorities from some position on does next. */
  datatype Choice = Skip | Start | StartNVTop

  function Choose(host: Host, s: Source, position: nat, groups: set<Group>): Choice {
    if !Available(host, s) then Skip
    else if s.NVTop? then (if groups == {} then StartNVTop else Skip)
    else if GroupOf(s).value in groups || !Starts(host, s, position) then Skip
    else Start
  }

  /** The positions started by one pass, and where nvtop's fallback would resume. */
  datatype Pass = Pass(started: seq<nat>, resume: Option<nat>)

  function Select(host: Host, priorities: seq<Source>, i: nat, groups: set<Group>): Pass
    requires i <= |priorities|
    decreases |priorities| - i
  {
    if i == |priorities| then Pass([], None)
    else match Choose(host, priorities[i], i, groups)
      case Skip => Select(host, priorities, i + 1, groups)
      case StartNVTop => Pass([i], Some(i + 1))
      case Start =>
        var rest := Select(host, priorities, i + 1, groups + {GroupOf(priorities[i]).value});
        Pass([i] + rest.started, rest.resume)
  }

  lemma SelectNext(host: Host, priorities: seq<Source>, i: nat, groups: set<Group>, started: seq<nat>)
    requires i < |priorities|
    ensures
      var s, whole := priorities[i], Select(host, priorities, i, groups);
      match Choose(host, s, i, groups)
      case Skip => whole == Select(host, priorities, i + 1, groups)
      case StartNVTop => whole == Pass([i], Some(i + 1))
      case Start =>
        var rest := Select(host, priorities, i + 1, groups + {GroupOf(s).value});
        whole.resume == rest.resume && started + whole.started == (started + [i]) + rest.started
  {
    hide Choose;
  }

  lemma NothingSelected(host: Host, priorities: seq<Source>, groups: set<Group>)
    ensures Select(host, priorities, |priorities|, groups) == Pass([], None)
  {
  }

  /** The loop of startCollectorsByPriority over the priorities from `offset` on. */
  method StartCollectorsByPriority(host: Host, priorities: seq<Source>, offset: nat) returns (pass: Pass)
    requires offset <= |priorities|
    ensures pass == Select(host, priorities, offset, {})
  {
    hide Select, Available, Starts;
    var selectedGroups: set<Group> := {};
    var started: seq<nat> := [];
    var i := offset;
    while i < |priorities|
      invariant offset <= i <= |priorities|
      invariant Select(host, priorities, offset, {}).resume == Select(host, priorities, i, selectedGroups).resume
      invariant Select(host, priorities, offset, {}).started
             == started + Select(host, priorities, i, selectedGroups).started
    {
      SelectNext(host, priorities, i, selectedGroups, started);
      var source := priorities[i];
      if !Available(host, source) {
        i := i + 1;
        continue;
      }
      if source == NVTop {
        if selectedGroups != {} {
          i := i + 1;
          continue;
        }
        return Pass(started + [i], Some(i + 1));
      }
      var group := GroupOf(source).value;
      if group in selectedGroups {
        i := i + 1;
        continue;
      }
      if Starts(host, source, i) {
        selectedGroups := selectedGroups + {group};
        started := started + [i];
      }
      i := i + 1;
    }
    NothingSelected(host, priorities, selectedGroups);
    return Pass(started, None);
  }

  /** Everything started along the fallback chain, if nvtop fails at the positions in `fails`. */
  function Chain(host: Host, priorities: seq<Source>, offset: nat, fails: set<nat>): (started: seq<nat>)
    requires offset <= |priorities|
    decreases |priorities| - offset
  {
    var pass := Select(host, priorities, offset, {});
    ResumesLater(host, priorities, offset, {});
    if pass.resume.Some? && pass.resume.value - 1 in fails
    then pass.started + Chain(host, priorities, pass.resume.value, fails)
    else pass.started
  }

  /** The remaining priorities are a strict suffix, so the chain ends. */
  lemma {:induction false} ResumesLater(host: Host, priorities: seq<Source>, i: nat, groups: set<Group>)
    requires i <= |priorities|
    ensures
      var pass := Select(host, priorities, i, groups);
      && (pass.resume.Some? ==> i < pass.resume.value <= |priorities|)
      && (forall k :: 0 <= k < |pass.started| ==> i <= pass.started[k] < |priorities|)
      && (pass.resume.Some? ==>
            pass.started != [] && pass.started[|pass.started| - 1] == pass.resume.value - 1)
    decreases |priorities| - i
  {
    if i < |priorities| {
      ResumesLater(host, priorities, i + 1, groups);
      if Choose(host, priorities[i], i, groups) == Start {
        ResumesLater(host, priorities, i + 1, groups + {GroupOf(priorities[i]).value});
      }
    }
  }

  predicate Ascending(q: seq<nat>) {
    forall a, b :: 0 <= a < b < |q| ==> q[a] < q[b]
  }

  /** No two vendor collectors of the positions share a group, and none is in `taken`. */
  predicate OnePerGroup(priorities: seq<Source>, q: seq<nat>, taken: set<Group>)
    requires forall k :: 0 <= k < |q| ==> q[k] < |priorities|
  {
    && (forall a :: 0 <= a < |q| && !priorities[q[a]].NVTop? ==> GroupOf(priorities[q[a]]).value !in taken)
    && (forall a, b :: 0 <= a < b < |q| && !priorities[q[a]].NVTop? && !priorities[q[b]].NVTop? ==>
          GroupOf(priorities[q[a]]) != GroupOf(priorities[q[b]]))
  }

  /** No nvtop follows a vendor collector. */
  predicate NVTopFirst(priorities: seq<Source>, q: seq<nat>)
    requires forall k :: 0 <= k < |q| ==> q[k] < |priorities|
  {
    forall a, b :: 0 <= a < b < |q| && priorities[q[b]].NVTop? ==> priorities[q[a]].NVTop?
  }

  /** What one pass starts: vendors of different groups, or nvtop alone. */
  lemma {:induction false} PassIsExclusive(host: Host, priorities: seq<Source>, i: nat, groups: set<Group>)
    requires i <= |priorities|
    ensures
      var pass := Select(host, priorities, i, groups);
      && (forall k :: 0 <= k < |pass.started| ==> i <= pass.started[k] < |priorities|)
      && Ascending(pass.started)
      && OnePerGroup(priorities, pass.started, groups)
      && (pass.resume.Some? ==> groups == {} && |pass.started| == 1 && priorities[pass.started[0]].NVTop?)
      && (pass.resume.None? ==> forall k :: 0 <= k < |pass.started| ==> !priorities[pass.started[k]].NVTop?)
    decreases |priorities| - i
  {
    ResumesLater(host, priorities, i, groups);
    if i < |priorities| {
      PassIsExclusive(host, priorities, i + 1, groups);
      if Choose(host, priorities[i], i, groups) == Start {
        PassIsExclusive(host, priorities, i + 1, groups + {GroupOf(priorities[i]).value});
      }
    }
  }

  /** Along the whole fallback chain every priority entry is started at most once, at most one
      collector per vendor group is started, and nvtop is started only while no vendor is. */
  lemma {:induction false} ChainIsExclusive(host: Host, priorities: seq<Source>, offset: nat, fails: set<nat>)
    requires offset <= |priorities|
    ensures
      var q := Chain(host, priorities, offset, fails);
      && (forall k :: 0 <= k < |q| ==> offset <= q[k] < |priorities|)
      && Ascending(q) && OnePerGroup(priorities, q, {}) && NVTopFirst(priorities, q)
    decreases |priorities| - offset
  {
    var pass := Select(host, priorities, offset, {});
    PassIsExclusive(host, priorities, offset, {});
    ResumesLater(host, priorities, offset, {});
    if pass.resume.Some? && pass.resume.value - 1 in fails {
      ChainIsExclusive(host, priorities, pass.resume.value, fails);
    }
  }

  /** Whether the positions cover a group. */
  predicate Covers(priorities: seq<Source>, q: seq<nat>, g: Group)
    requires forall k :: 0 <= k < |q| ==> q[k] < |priorities|
  {
    exists k :: 0 <= k < |q| && GroupOf(priorities[q[k]]) == Some(g)
  }

  lemma {:induction false} PassIsComplete(host: Host, priorities: seq<Source>, i: nat, groups: set<Group>, p: nat)
    requires i <= p < |priorities|
    requires Available(host, priorities[p]) && Starts(host, priorities[p], p) && !priorities[p].NVTop?
    ensures
      var pass := Select(host, priorities, i, groups);
      && (forall k :: 0 <= k < |pass.started| ==> pass.started[k] < |priorities|)
      && (|| Covers(priorities, pass.started, GroupOf(priorities[p]).value)
          || GroupOf(priorities[p]).value in groups
          || (pass.resume.Some? && pass.resume.value <= p))
    decreases |priorities| - i
  {
    ResumesLater(host, priorities, i, groups);
    var g := GroupOf(priorities[p]).value;
    match Choose(host, priorities[i], i, groups)
    case Skip =>
      if i < p {
        PassIsComplete(host, priorities, i + 1, groups, p);
      }
    case StartNVTop =>
      assert i < p;
    case Start =>
      var pass := Select(host, priorities, i, groups);
      var rest := Select(host, priorities, i + 1, groups + {GroupOf(priorities[i]).value});
      assert pass.started[0] == i;
      if i < p {
        PassIsComplete(host, priorities, i + 1, groups + {GroupOf(priorities[i]).value}, p);
        ResumesLater(host, priorities, i + 1, groups + {GroupOf(priorities[i]).value});
        if Covers(priorities, rest.started, g) {
          var k :| 0 <= k < |rest.started| && GroupOf(priorities[rest.started[k]]) == Some(g);
          assert pass.started[k + 1] == rest.started[k];
        }
      }
  }

  /** No vendor is forgotten: if every started nvtop fails, each vendor group with a usable
      entry ends up with a collector. */
  lemma {:induction false} ChainIsComplete(host: Host, priorities: seq<Source>, offset: nat, fails: set<nat>, p: nat)
    requires offset <= p < |priorities|
    requires forall k :: offset <= k < |priorities| ==> k in fails
    requires Available(host, priorities[p]) && Starts(host, priorities[p], p) && !priorities[p].NVTop?
    ensures
      var q := Chain(host, priorities, offset, fails);
      && (forall k :: 0 <= k < |q| ==> q[k] < |priorities|)
      && Covers(priorities, q, GroupOf(priorities[p]).value)
    decreases |priorities| - offset
  {
    var pass := Select(host, priorities, offset, {});
    var g := GroupOf(priorities[p]).value;
    ChainIsExclusive(host, priorities, offset, fails);
    ResumesLater(host, priorities, offset, {});
    PassIsExclusive(host, priorities, offset, {});
    PassIsComplete(host, priorities, offset, {}, p);
    var q := Chain(host, priorities, offset, fails);
    if Covers(priorities, pass.started, g) {
      var k :| 0 <= k < |pass.started| && GroupOf(priorities[pass.started[k]]) == Some(g);
      assert q[k] == pass.started[k];
    } else {
      ChainIsComplete(host, priorities, pass.resume.value, fails, p);
      var rest := Chain(host, priorities, pass.resume.value, fails);
      var k :| 0 <= k < |rest| && GroupOf(priorities[rest[k]]) == Some(g);
      assert q[|pass.started| + k] == rest[k];
    }
  }

  // ----- exactly what one pass starts -----

  /** The vendor collector at a position is there and starts. */
  predicate Works(host: Host, priorities: seq<Source>, q: int)
    requires 0 <= q < |priorities|
  {
    match priorities[q]
    case NVTop => false
    case NVML => q in host.nvmlStarts
    case s => s in host.tools
  }

  predicate SameVendor(a: Source, b: Source) {
    || {a, b} <= {NVML, NvidiaSMI}
    || {a, b} <= {IntelGpuTop}
    || {a, b} <= {AmdSysfs, RocmSMI}
  }

  /** nvtop's turn: it is there, and no vendor collector in front of it works. */
  predicate NVTopTurn(host: Host, priorities: seq<Source>, i: nat, p: int)
    requires 0 <= p < |priorities|
  {
    && priorities[p].NVTop? && NVTop in host.tools
    && forall q :: i <= q < p ==> !Works(host, priorities, q)
  }

  predicate AfterNVTop(host: Host, priorities: seq<Source>, i: nat, p: int)
    requires 0 <= p < |priorities|
  {
    exists q :: i <= q < p && NVTopTurn(host, priorities, i, q)
  }

  /** The vendor is served by an entry in front. */
  predicate Served(host: Host, priorities: seq<Source>, i: nat, p: int)
    requires 0 <= p < |priorities|
  {
    exists q :: i <= q < p && Works(host, priorities, q) && SameVendor(priorities[q], priorities[p])
  }

  predicate IsStarted(host: Host, priorities: seq<Source>, i: nat, p: int)
    requires 0 <= p < |priorities|
  {
    && i <= p && !AfterNVTop(host, priorities, i, p)
    && (NVTopTurn(host, priorities, i, p) || (Works(host, priorities, p) && !Served(host, priorities, i, p)))
  }

  lemma GroupsAreVendors(a: Source, b: Source)
    ensures SameVendor(a, b) <==> !a.NVTop? && GroupOf(a) == GroupOf(b)
  {
  }

  /** With some vendors served already nvtop has no turn. */
  lemma {:induction false} SelectAmongVendors(host: Host, priorities: seq<Source>, i: nat, groups: set<Group>, p: nat)
    requires i <= |priorities| && p < |priorities| && groups != {}
    ensures
      var pass := Select(host, priorities, i, groups);
      && pass.resume.None?
      && (p in pass.started <==>
            && i <= p && Works(host, priorities, p) && !Served(host, priorities, i, p)
            && GroupOf(priorities[p]).value !in groups)
    decreases |priorities| - i
  {
    if i < |priorities| {
      SelectAmongVendors(host, priorities, i + 1, groups, p);
      GroupsAreVendors(priorities[i], priorities[p]);
      ServedNext(host, priorities, i, p);
      match Choose(host, priorities[i], i, groups)
      case Skip =>
      case StartNVTop =>
      case Start =>
        SelectAmongVendors(host, priorities, i + 1, groups + {GroupOf(priorities[i]).value}, p);
    }
  }

  lemma ServedNext(host: Host, priorities: seq<Source>, i: nat, p: nat)
    requires i < |priorities| && p < |priorities|
    ensures Served(host, priorities, i, p) <==>
              || Served(host, priorities, i + 1, p)
              || (i < p && Works(host, priorities, i) && SameVendor(priorities[i], priorities[p]))
  {
    hide Works, SameVendor;
  }

  lemma TurnNext(host: Host, priorities: seq<Source>, i: nat, p: nat)
    requires i < |priorities| && p < |priorities|
    ensures i < p ==> (NVTopTurn(host, priorities, i, p) <==>
                         NVTopTurn(host, priorities, i + 1, p) && !Works(host, priorities, i))
    ensures AfterNVTop(host, priorities, i, p) <==>
              || (i < p && NVTopTurn(host, priorities, i, i))
              || (!Works(host, priorities, i) && AfterNVTop(host, priorities, i + 1, p))
  {
    hide Works;
    if AfterNVTop(host, priorities, i, p) {
      var q :| i <= q < p && NVTopTurn(host, priorities, i, q);
      assert q == i || NVTopTurn(host, priorities, i + 1, q);
    }
    if !Works(host, priorities, i) && AfterNVTop(host, priorities, i + 1, p) {
      var q :| i + 1 <= q < p && NVTopTurn(host, priorities, i + 1, q);
      assert NVTopTurn(host, priorities, i, q);
    }
    if i < p && NVTopTurn(host, priorities, i, i) {
      assert AfterNVTop(host, priorities, i, p);
    }
  }

  /** An entry is started if and only if no nvtop had its turn in front of it, and it is nvtop's
      own turn or a working entry of a vendor that no working entry in front serves. */
  lemma {:induction false} StartedExactlyWhen(host: Host, priorities: seq<Source>, i: nat, p: nat)
    requires i <= |priorities| && p < |priorities|
    ensures
      var pass := Select(host, priorities, i, {});
      && (p in pass.started <==> IsStarted(host, priorities, i, p))
      && (pass.resume == Some(p + 1) <==> IsStarted(host, priorities, i, p) && priorities[p].NVTop?)
    decreases |priorities| - i
  {
    hide SameVendor;
    if i < |priorities| {
      StartedExactlyWhen(host, priorities, i + 1, p);
      ServedNext(host, priorities, i, p);
      TurnNext(host, priorities, i, p);
      ResumesLater(host, priorities, i + 1, {});
      match Choose(host, priorities[i], i, {})
      case Skip =>
      case StartNVTop =>
        assert NVTopTurn(host, priorities, i, i);
      case Start =>
        var g := GroupOf(priorities[i]).value;
        SelectAmongVendors(host, priorities, i + 1, {} + {g}, p);
        GroupsAreVendors(priorities[i], priorities[p]);
    }
  }

  // ----- the retry loop -----

  const MAX_FAILURE_RETRIES := 5

  /** One round: whether collecting failed, whether the error handler, if called, answers to go
      on, and whether the context outlived the collection and the wait after it. A script that
      ends stands for a context cancelled by then. */
  datatype Round = Round(failed: bool, again: bool, alive: bool, slept: bool)

  /** How often the error handler is called. */
  function Handled(script: seq<Round>, failures: nat): nat {
    if script == [] then 0
    else if !script[0].failed then (if script[0].slept then Handled(script[1..], 0) else 0)
    else if !script[0].alive || failures + 1 > MAX_FAILURE_RETRIES then 0
    else 1 + (if script[0].again && script[0].slept then Handled(script[1..], failures + 1) else 0)
  }

  method RunRetryingCollector(script: seq<Round>) returns (handled: nat)
    ensures handled == Handled(script, 0)
  {
    handled := 0;
    var failures, i := 0, 0;
    while i < |script|
      invariant 0 <= i <= |script|
      invariant Handled(script, 0) == handled + Handled(script[i..], failures)
    {
      var round := script[i];
      assert script[i..][1..] == script[i + 1..];
      i := i + 1;
      if !round.failed {
        failures := 0;
        if !round.slept {
          return;
        }
        continue;
      }
      if !round.alive {
        return;
      }
      failures := failures + 1;
      if failures > MAX_FAILURE_RETRIES {
        return;
      }
      handled := handled + 1;
      if !round.again || !round.slept {
        return;
      }
    }
  }

  function Successes(script: seq<Round>): nat {
    if script == [] then 0 else (if script[0].failed then 0 else 1) + Successes(script[1..])
  }

  /** A handler that never goes on, like nvtop's with a fallback, is called at most once;
      any handler is called for at most five errors in a row. */
  lemma {:induction false} HandlerIsBounded(script: seq<Round>, failures: nat)
    requires failures <= MAX_FAILURE_RETRIES
    ensures (forall i :: 0 <= i < |script| ==> !script[i].again) ==> Handled(script, failures) <= 1
    ensures Handled(script, failures) <= MAX_FAILURE_RETRIES - failures + MAX_FAILURE_RETRIES * Successes(script)
  {
    if script != [] {
      HandlerIsBounded(script[1..], 0);
      if failures < MAX_FAILURE_RETRIES {
        HandlerIsBounded(script[1..], failures + 1);
      }
    }
  }

  /** A round that fails and lets the loop go on. */
  predicate GoesOnFailing(r: Round) {
    r.failed && r.alive && r.again && r.slept
  }

  /** Failures in a row are handled one by one, up to five of them; the sixth ends the loop. */
  lemma {:induction false} FiveFailuresAreHandled(script: seq<Round>, k: nat, failures: nat)
    requires k <= |script| && forall j :: 0 <= j < k ==> GoesOnFailing(script[j])
    ensures failures + k <= 5 ==> Handled(script, failures) == k + Handled(script[k..], failures + k)
    ensures failures <= 5 < failures + k ==> Handled(script, failures) == 5 - failures
  {
    if k == 0 {
      assert script[0..] == script;
    } else {
      FiveFailuresAreHandled(script[1..], k - 1, failures + 1);
      assert script[1..][k - 1..] == script[k..];
    }
  }

  /** A success lets the count start over, if the wait after it was not cut short. */
  lemma SuccessStartsOver(script: seq<Round>, k: nat)
    requires k < |script| && k <= 5 && forall j :: 0 <= j < k ==> GoesOnFailing(script[j])
    requires !script[k].failed
    ensures Handled(script, 0) == k + if script[k].slept then Handled(script[k + 1..], 0) else 0
  {
    FiveFailuresAreHandled(script, k, 0);
    assert script[k..][1..] == script[k + 1..];
  }

  /** The last round handled: a refusal to go on or an interrupted wait ends the loop after it, a
      dead context before it. */
  lemma LastFailure(script: seq<Round>, k: nat)
    requires k < |script| && k < 5 && forall j :: 0 <= j < k ==> GoesOnFailing(script[j])
    requires script[k].failed && !GoesOnFailing(script[k])
    ensures Handled(script, 0) == if script[k].alive then k + 1 else k
    ensures Handled(script[..k], 0) == k
  {
    FiveFailuresAreHandled(script, k, 0);
    FiveFailuresAreHandled(script[..k], k, 0);
    assert script[..k][k..] == [];
  }
}
