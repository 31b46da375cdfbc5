/** Running a phase plan, from the start or from a phase to resume at (plan.Run in pkg/phase/client.go). */
module PlanRunner {
  import opened Wrappers

  /** How one attempt at a phase ends. */
  datatype Attempt = UnknownPhase | RunFailed | RunDone

  datatype Entry = Entry(name: string, attempt: Attempt)

  /** The phases from the first one of that name on; all of them if there is none. */
  function From(phases: seq<string>, name: string): seq<string> {
    if name == "" || name !in phases then phases else FromName(phases, name)
  }

  function FromName(phases: seq<string>, name: string): seq<string>
    requires name in phases
  {
    if phases[0] == name then phases else FromName(phases[1..], name)
  }

  /**
   * after is what a plan of the phases before has left to run: all of it if no
   * phase has the name or there is no name, else all from the first such phase on.
   */
  ghost predicate ResumedAt(before: seq<string>, name: string, after: seq<string>) {
    if name == "" || name !in before then after == before
    else exists k :: 0 <= k < |before| && before[k] == name && name !in before[..k] && after == before[k..]
  }

  lemma {:induction false} FromMeans(phases: seq<string>, name: string)
    ensures ResumedAt(phases, name, From(phases, name))
    ensures forall after :: ResumedAt(phases, name, after) ==> after == From(phases, name)
    decreases |phases|
  {
    if name != "" && name in phases {
      var k := FirstAt(phases, name);
      assert FromName(phases, name) == phases[k..];
      forall after | ResumedAt(phases, name, after) ensures after == phases[k..] {
        var j :| 0 <= j < |phases| && phases[j] == name && name !in phases[..j] && after == phases[j..];
        assert forall i :: 0 <= i < k ==> phases[i] in phases[..k];
        assert forall i :: 0 <= i < j ==> phases[i] in phases[..j];
      }
    }
  }

  lemma {:induction false} FirstAt(phases: seq<string>, name: string) returns (k: nat)
    requires name in phases
    ensures k < |phases| && phases[k] == name && name !in phases[..k] && FromName(phases, name) == phases[k..]
    decreases |phases|
  {
    k := 0;
    if phases[0] != name {
      k := FirstAt(phases[1..], name);
      k := k + 1;
      assert phases[..k] == [phases[0]] + phases[1..][..k - 1];
    }
  }

  /**
   * attempts go through a prefix of phases in order; all of them are done if
   * the run succeeds, and all but the last one if it fails.
   */
  ghost predicate RunOf(phases: seq<string>, attempts: seq<Entry>, ok: bool) {
    && |attempts| <= |phases| && (ok ==> |attempts| == |phases|) && (!ok ==> attempts != [])
    && (forall k :: 0 <= k < |attempts| ==> attempts[k].name == phases[k])
    && (forall k :: 0 <= k < |attempts| ==> (attempts[k].attempt == RunDone <==> ok || k < |attempts| - 1))
  }

  /** A plan; its phase list is cut off for good when a run resumes. */
  class Plan {
    /** What the phases do: it may depend on everything attempted before. */
    const world: (seq<Entry>, string) -> Attempt
    var phases: seq<string>
    var history: seq<Entry>

    constructor (world: (seq<Entry>, string) -> Attempt, phases: seq<string>)
      ensures this.world == world && this.phases == phases && history == []
    {
      this.world := world;
      this.phases := phases;
      history := [];
    }

    /** Cut the phase list off before the phase to resume at. */
    method ResumeAt(resume: string)
      modifies this`phases
      ensures phases == From(old(phases), resume) && ResumedAt(old(phases), resume, phases)
    {
      FromMeans(phases, resume);
      if resume == "" {
        return;
      }
      for i := 0 to |phases|
        invariant phases == old(phases) && resume !in phases[..i]
        invariant From(phases, resume) == if resume in phases then FromName(phases[i..], resume) else phases
      {
        if phases[i] == resume {
          phases := phases[i..];
          return;
        }
        assert phases[i..][1..] == phases[i + 1..];
      }
    }

    /** Run attempts a prefix of the phases from the resume point, and stops at the first failure. */
    method Run(resume: string) returns (ok: bool, ghost attempts: seq<Entry>)
      modifies this
      ensures phases == From(old(phases), resume) && ResumedAt(old(phases), resume, phases)
      ensures history == old(history) + attempts
      ensures RunOf(phases, attempts, ok) && Answered(world, old(history), attempts)
    {
      ResumeAt(resume);
      hide Answered, ResumedAt;
      attempts := [];
      NothingAnswered(world, history);
      for k := 0 to |phases|
        invariant phases == From(old(phases), resume) && ResumedAt(old(phases), resume, phases)
        invariant history == old(history) + attempts && |attempts| == k
        invariant forall i :: 0 <= i < k ==> attempts[i] == Entry(phases[i], RunDone)
        invariant Answered(world, old(history), attempts)
      {
        var attempt := world(history, phases[k]);
        history := history + [Entry(phases[k], attempt)];
        OneMoreAnswered(world, old(history), attempts, phases[k]);
        attempts := attempts + [Entry(phases[k], attempt)];
        if attempt != RunDone {
          return false, attempts;
        }
      }
      return true, attempts;
    }
  }

  /** Each attempt ends as the world has it after all that was attempted before. */
  ghost predicate Answered(world: (seq<Entry>, string) -> Attempt, before: seq<Entry>, attempts: seq<Entry>) {
    forall k :: 0 <= k < |attempts| ==>
      attempts[k].attempt == world(before + attempts[..k], attempts[k].name)
  }

  lemma NothingAnswered(world: (seq<Entry>, string) -> Attempt, before: seq<Entry>)
    ensures Answered(world, before, [])
  {
  }

  lemma OneMoreAnswered(world: (seq<Entry>, string) -> Attempt, before: seq<Entry>, attempts: seq<Entry>, name: string)
    requires Answered(world, before, attempts)
    ensures Answered(world, before, attempts + [Entry(name, world(before + attempts, name))])
  {
    var more := attempts + [Entry(name, world(before + attempts, name))];
    assert more[..|attempts|] == attempts;
    forall k | 0 <= k < |more| ensures more[k].attempt == world(before + more[..k], more[k].name) {
      if k < |attempts| {
        assert more[..k] == attempts[..k];
      }
    }
  }

  /** The phases that attempts have completed, in order. */
  function Completed(attempts: seq<Entry>): seq<string> {
    if attempts == [] then []
    else (if attempts[0].attempt == RunDone then [attempts[0].name] else []) + Completed(attempts[1..])
  }

  lemma {:induction false} CompletedPrefix(phases: seq<string>, attempts: seq<Entry>, ok: bool)
    requires RunOf(phases, attempts, ok)
    ensures Completed(attempts) == phases[..if ok then |phases| else |attempts| - 1]
    decreases |attempts|
  {
    if attempts != [] {
      if ok || |attempts| > 1 {
        CompletedPrefix(phases[1..], attempts[1..], ok);
        assert phases == [phases[0]] + phases[1..];
      } else {
        assert attempts[1..] == [];
      }
    }
  }

  lemma {:induction false} FromNameIsSuffix(phases: seq<string>, k: nat)
    requires k < |phases|
    ensures FromName(phases, phases[k]) == phases[k..] <==> phases[k] !in phases[..k]
    ensures |FromName(phases, phases[k])| >= |phases[k..]|
    decreases |phases|
  {
    if phases[0] == phases[k] {
      assert k > 0 ==> phases[..k][0] == phases[k];
    } else {
      assert phases[..k] == [phases[0]] + phases[1..][..k - 1];
      assert phases[1..][k - 1] == phases[k] && phases[1..][k - 1..] == phases[k..];
      FromNameIsSuffix(phases[1..], k - 1);
    }
  }

  /**
   * A run that fails, followed by one that resumes at the failed phase and
   * succeeds, completes every phase exactly once and in order, exactly when
   * the failed phase has a name that no earlier phase has.
   */
  lemma {:induction false} ResumeCompletes(phases: seq<string>, first: seq<Entry>, second: seq<Entry>)
    requires RunOf(phases, first, false)
    requires RunOf(From(phases, phases[|first| - 1]), second, true)
    ensures
      var k := |first| - 1;
      Completed(first) + Completed(second) == phases <==>
      phases[k] !in phases[..k] && (phases[k] != "" || k == 0)
  {
    var k := |first| - 1;
    CompletedPrefix(phases, first, false);
    var rest := From(phases, phases[k]);
    CompletedPrefix(rest, second, true);
    assert rest[..|rest|] == rest;
    FromNameIsSuffix(phases, k);
    assert phases == phases[..k] + phases[k..];
    if phases[..k] + rest == phases {
      assert (phases[..k] + rest)[k..] == rest;
    }
  }
}
