/** The agent's connection to the cloud: started and stopped by events, each run with a number. */
module Connector {
  import opened Common

  /** `cancel` names the run whose cancel function is stored. A run is live until the section at
      its end; a stop first takes the stored cancel and then, outside the lock, calls it. */
  datatype Lifecycle = Lifecycle(
    cancel: Option<nat>,
    generation: nat,
    live: set<nat>,
    taken: set<nat>,
    cancelled: set<nat>)

  const IDLE := Lifecycle(None, 0, {}, {}, {})

  datatype Section =
    | Start
    | StopTakes
    | StopCancels(run: nat)
    | RunExits(run: nat)

  predicate Enabled(c: Lifecycle, s: Section) {
    match s
    case StopCancels(run) => run in c.taken
    case RunExits(run) => run in c.live
    case _ => true
  }

  function Next(c: Lifecycle, s: Section): Lifecycle {
    match s
    case Start =>
      if c.cancel.Some? then c
      else c.(cancel := Some(c.generation + 1), generation := c.generation + 1, live := c.live + {c.generation + 1})
    case StopTakes =>
      if c.cancel.Some? then c.(cancel := None, taken := c.taken + {c.cancel.value}) else c
    case StopCancels(run) => c.(cancelled := c.cancelled + {run})
    case RunExits(run) => c.(live := c.live - {run}, cancel := if c.generation == run then None else c.cancel)
  }

  predicate Possible(c: Lifecycle, sections: seq<Section>)
    decreases |sections|
  {
    sections != [] ==> Enabled(c, sections[0]) && Possible(Next(c, sections[0]), sections[1..])
  }

  function Run(c: Lifecycle, sections: seq<Section>): Lifecycle
    decreases |sections|
  {
    if sections == [] then c else Run(Next(c, sections[0]), sections[1..])
  }

  /** The stored cancel is that of the newest run, which is live; every other live run has been
      taken by a stop. */
  predicate Accounted(c: Lifecycle) {
    && (c.cancel.Some? ==> c.cancel.value == c.generation && c.cancel.value in c.live && c.cancel.value !in c.taken)
    && (forall run <- c.live :: run <= c.generation && (Some(run) == c.cancel || run in c.taken))
    && (forall run <- c.taken :: run <= c.generation)
    && c.cancelled <= c.taken
  }

  lemma StepKeeps(c: Lifecycle, s: Section)
    requires Accounted(c) && Enabled(c, s)
    ensures Accounted(Next(c, s))
  {
  }

  lemma {:induction false} RunKeeps(c: Lifecycle, sections: seq<Section>)
    requires Accounted(c) && Possible(c, sections)
    ensures Accounted(Run(c, sections))
    decreases |sections|
  {
    if sections != [] {
      StepKeeps(c, sections[0]);
      RunKeeps(Next(c, sections[0]), sections[1..]);
    }
  }

  /** At most one live run is still wanted, and it is the one whose cancel is stored: once every
      stop has finished, every other live run is cancelled. */
  lemma OneWantedRun(sections: seq<Section>, run: nat, other: nat)
    requires Possible(IDLE, sections)
    ensures
      var c := Run(IDLE, sections);
      && (run in c.live && run !in c.taken <==> c.cancel == Some(run))
      && (run in c.live && other in c.live && run !in c.taken && other !in c.taken ==> run == other)
      && (c.taken == c.cancelled && run in c.live && c.cancel != Some(run) ==> run in c.cancelled)
  {
    RunKeeps(IDLE, sections);
  }

  /** A run that ends clears the stored cancel exactly if that cancel is its own. */
  lemma ExitClearsOnlyItsOwn(sections: seq<Section>, run: nat)
    requires Possible(IDLE, sections) && run in Run(IDLE, sections).live
    ensures
      var c := Run(IDLE, sections);
      Next(c, RunExits(run)).cancel == if c.cancel == Some(run) then None else c.cancel
  {
    RunKeeps(IDLE, sections);
  }

  /** What the sections do: a start begins a run of a new number exactly if no cancel is stored; a stop
      takes the stored cancel away, so that the next start begins a run; cancelling and exiting are of
      that run alone. */
  lemma SectionsExactly(sections: seq<Section>, run: nat)
    requires Possible(IDLE, sections)
    ensures
      var c := Run(IDLE, sections);
      var started, stopped := Next(c, Start), Next(c, StopTakes);
      && (c.cancel.Some? ==> started == c)
      && (c.cancel.None? ==>
            && started.cancel.Some? && started.cancel.value !in c.live + c.taken
            && started.live == c.live + {started.cancel.value})
      && stopped.cancel.None? && stopped.live == c.live
      && (c.cancel == Some(run) ==> stopped.taken == c.taken + {run})
      && (c.cancel.None? ==> stopped == c)
      && Next(c, StopCancels(run)) == c.(cancelled := c.cancelled + {run})
      && (run in c.live ==> Next(c, RunExits(run)).live == c.live - {run})
  {
    RunKeeps(IDLE, sections);
  }

  class CloudConnectorLifecycle {
    const configured: bool
    var cancel: Option<nat>
    var generation: nat
    ghost var live: set<nat>
    ghost var taken: set<nat>
    ghost var cancelled: set<nat>

    ghost function View(): Lifecycle
      reads this
    {
      Lifecycle(cancel, generation, live, taken, cancelled)
    }

    constructor (configured: bool)
      ensures View() == IDLE && this.configured == configured
    {
      this.configured := configured;
      cancel, generation := None, 0;
      live, taken, cancelled := {}, {}, {};
    }

    method StartRun() returns (started: Option<nat>)
      modifies this
      ensures View() == if configured then Next(old(View()), Start) else old(View())
      ensures started == if configured && old(cancel).None? then Some(generation) else None
    {
      if !configured || cancel.Some? { return None; }
      generation := generation + 1;
      cancel := Some(generation);
      live := live + {generation};
      return Some(generation);
    }

    method TakeCancel() returns (run: Option<nat>)
      modifies this
      ensures View() == Next(old(View()), StopTakes) && run == old(cancel)
    {
      run := cancel;
      cancel := None;
      if run.Some? { taken := taken + {run.value}; }
    }

    method Exit(run: nat)
      modifies this
      ensures View() == Next(old(View()), RunExits(run))
    {
      if generation == run { cancel := None; }
      live := live - {run};
    }
  }
}
