/**
 The lock files that launchers and maintenance runs share. A lock belongs to the file that
 was opened, not to its name, and removal unlinks the names.
 */
module SlotLocks {
  import opened Wrappers

  const SLOTS := 4

  /** A lock file; a name that is unlinked and created again denotes the next generation. */
  datatype Inode = Inode(slot: nat, generation: nat)

  /** Restore and removal are the maintenance runs. */
  datatype Role = Launcher | Restore | Removal

  /** Restore first creates the lock files that are missing. `Inside`: the lease is granted, or the guarded section
      of restore or removal runs. Removal then gives its locks back, last one first, and unlinks the lock files. */
  datatype Phase = Touching(slot: nat) | Walking | Inside | Releasing | Unlinking(slot: nat)

  /** A launcher takes the first slot it can lock; a maintenance run locks all of them, in order.
      `file` is open but not locked yet. `seenBusy`: what a launcher saw at each slot it turned away from. */
  datatype Agent = Agent(role: Role, phase: Phase, next: nat, file: Option<Inode>, held: map<nat, Inode>,
                         seenBusy: seq<Reason>)

  datatype Reason = SawLock | SawCarrier

  datatype State = State(path: map<nat, Inode>, generation: nat, agents: map<nat, Agent>)

  /** A launcher starts here when it has passed the checks before its loop; any agent can leave or die at any time. */
  datatype Step =
    | Start(agent: nat, role: Role)
    | TouchFile(agent: nat)
    | OpenFile(agent: nat)
    | TryLock(agent: nat)
    | CheckCarrier(agent: nat, up: bool)
    | Finish(agent: nat)
    | Release(agent: nat)
    | Unlink(agent: nat)
    | Leave(agent: nat)

  predicate Holds(s: State, a: nat, f: Inode) {
    a in s.agents && f.slot in s.agents[a].held && s.agents[a].held[f.slot] == f
  }

  predicate Taken(s: State, f: Inode) {
    exists b | b in s.agents :: Holds(s, b, f)
  }

  predicate Enabled(s: State, step: Step) {
    if step.Start? then step.agent !in s.agents
    else
      && step.agent in s.agents
      && var g := s.agents[step.agent];
         match step
         case TouchFile(_) => g.phase.Touching?
         case OpenFile(_) =>
           && g.phase == Walking && g.next < SLOTS && g.file.None? && g.next !in g.held
           && (g.role.Launcher? ==> g.next in s.path)
         case TryLock(_) => g.phase == Walking && g.file.Some?
         case CheckCarrier(_, _) => g.phase == Walking && g.next in g.held
         case Finish(_) => g.phase == Inside && g.role.Removal?
         case Release(_) => g.phase == Releasing && g.next > 0
         case Unlink(_) => g.phase.Unlinking? && g.phase.slot < SLOTS
         case _ => true
  }

  /** A launcher closes the file of a slot it cannot have and turns to the next one; a maintenance
      run raises and so closes everything. */
  function TurnAway(g: Agent, why: Reason): Option<Agent> {
    if g.role.Launcher?
    then Some(g.(next := g.next + 1, file := None, held := g.held - {g.next}, seenBusy := g.seenBusy + [why]))
    else None
  }

  /** The file that a name denotes once it is opened with creation. */
  function FileAt(s: State, i: nat): Inode {
    if i in s.path then s.path[i] else Inode(i, s.generation)
  }

  /** What becomes of the agent that steps; None when it leaves. */
  function Stepped(s: State, step: Step): Option<Agent>
    requires Enabled(s, step)
  {
    if step.Start? then
      Some(Agent(step.role, if step.role.Restore? then Touching(0) else Walking, 0, None, map[], []))
    else
      var g := s.agents[step.agent];
      match step
      case TouchFile(_) => Some(g.(phase := if g.phase.slot + 1 < SLOTS then Touching(g.phase.slot + 1) else Walking))
      case OpenFile(_) => Some(g.(file := Some(FileAt(s, g.next))))
      case TryLock(_) =>
        if Taken(s, g.file.value) then TurnAway(g, SawLock)
        else Some(g.(file := None, held := g.held[g.next := g.file.value]))
      case CheckCarrier(_, up) =>
        if up then TurnAway(g, SawCarrier)
        else if g.role.Launcher? then Some(g.(phase := Inside))
        else Some(g.(next := g.next + 1, phase := if g.next + 1 == SLOTS then Inside else Walking))
      case Finish(_) => Some(g.(phase := Releasing))
      case Release(_) =>
        Some(g.(next := g.next - 1, held := g.held - {g.next - 1}, phase := if g.next == 1 then Unlinking(0) else Releasing))
      case Unlink(_) => Some(g.(phase := Unlinking(g.phase.slot + 1)))
      case Leave(_) => None
  }

  /** The slot whose name a step touches, and the one whose name it takes away. */
  function Touches(s: State, step: Step): Option<nat>
    requires Enabled(s, step)
  {
    match step
    case TouchFile(a) => Some(s.agents[a].phase.slot)
    case OpenFile(a) => Some(s.agents[a].next)
    case _ => None
  }

  /** Maintenance opens with creation, a launcher only what exists. */
  function Files(s: State, step: Step): State
    requires Enabled(s, step)
  {
    var i := Touches(s, step);
    if step.Unlink? then s.(path := s.path - {s.agents[step.agent].phase.slot})
    else if i.Some? && i.value !in s.path then
      s.(path := s.path[i.value := FileAt(s, i.value)], generation := s.generation + 1)
    else s
  }

  function Apply(s: State, step: Step): State
    requires Enabled(s, step)
  {
    Files(s, step).(agents := match Stepped(s, step)
                               case Some(g) => s.agents[step.agent := g]
                               case None => s.agents - {step.agent})
  }

  // ---------------------------------------------------------------- invariants

  /** An agent is inside only with the locks that its section needs, removal unlinks without a lock, and a launcher
      that ran out of slots saw each of them locked or carrying. */
  predicate AgentInv(g: Agent) {
    && g.next <= SLOTS
    && (g.file.Some? ==> g.phase == Walking && g.next < SLOTS && g.file.value.slot == g.next && g.next !in g.held)
    && (forall i | i in g.held :: i < SLOTS && g.held[i].slot == i)
    && (forall i | i in g.held :: i < g.next || (i == g.next && g.phase in {Walking, Inside}))
    && (if g.role.Launcher? then
          g.phase in {Walking, Inside} && |g.seenBusy| == g.next && (g.phase == Inside ==> g.next in g.held)
        else
          && (g.phase == Inside <==> g.next == SLOTS && g.phase != Releasing)
          && (g.phase.Releasing? || g.phase.Unlinking? ==> g.role.Removal?)
          && (g.phase.Touching? ==> g.next == 0 && g.phase.slot < SLOTS)
          && (g.phase.Unlinking? ==> g.next == 0 && g.phase.slot <= SLOTS && g.held == map[])
          && (forall i | 0 <= i < g.next :: i in g.held))
  }

  /** One file has at most one lock holder. */
  ghost predicate FileExclusive(s: State) {
    forall a, b, f | Holds(s, a, f) && Holds(s, b, f) :: a == b
  }

  /** Nobody has a file of a later generation than the names can have. */
  predicate Born(s: State, g: Agent) {
    && (forall i | i in g.held :: g.held[i].generation < s.generation)
    && (g.file.Some? ==> g.file.value.generation < s.generation)
  }

  ghost predicate Inv(s: State) {
    && (forall i | i in s.path :: s.path[i].slot == i && s.path[i].generation < s.generation)
    && (forall a | a in s.agents :: AgentInv(s.agents[a]) && Born(s, s.agents[a]))
    && FileExclusive(s)
  }

  lemma SteppedInv(s: State, step: Step)
    requires Inv(s) && Enabled(s, step)
    ensures Stepped(s, step).Some? ==> AgentInv(Stepped(s, step).value)
  {
    if !step.Start? {
      assert AgentInv(s.agents[step.agent]);
    }
  }

  lemma SteppedBorn(s: State, step: Step)
    requires Inv(s) && Enabled(s, step)
    ensures Stepped(s, step).Some? ==> Born(Files(s, step), Stepped(s, step).value)
  {
    if !step.Start? {
      assert Born(s, s.agents[step.agent]);
    }
  }

  /** A step adds at most the lock that it takes, on a file that nobody had locked. */
  lemma HoldsBefore(s: State, step: Step, a: nat, f: Inode)
    requires Inv(s) && Enabled(s, step) && Holds(Apply(s, step), a, f)
    ensures Holds(s, a, f) || (step == TryLock(a) && s.agents[a].file == Some(f) && !Taken(s, f))
  {
    if a == step.agent && !step.Start? {
      assert AgentInv(s.agents[a]);
    }
  }

  lemma ApplyFileExclusive(s: State, step: Step)
    requires Inv(s) && Enabled(s, step)
    ensures FileExclusive(Apply(s, step))
  {
    var t := Apply(s, step);
    forall a, b, f | Holds(t, a, f) && Holds(t, b, f)
      ensures a == b
    {
      HoldsBefore(s, step, a, f);
      HoldsBefore(s, step, b, f);
    }
  }

  lemma ApplyInv(s: State, step: Step)
    requires Inv(s) && Enabled(s, step)
    ensures Inv(Apply(s, step))
  {
    SteppedInv(s, step);
    SteppedBorn(s, step);
    ApplyFileExclusive(s, step);
    var t := Apply(s, step);
    forall a | a in t.agents
      ensures AgentInv(t.agents[a]) && Born(t, t.agents[a])
    {
      assert a != step.agent ==> Born(s, s.agents[a]);
    }
  }

  /** A launcher changes no name: only maintenance creates a missing one, for a new file, and only removal takes one away. */
  lemma NamesChangeOnly(s: State, step: Step, i: nat)
    requires Inv(s) && Enabled(s, step)
    requires (i in s.path) != (i in Apply(s, step).path) || (i in s.path && s.path[i] != Apply(s, step).path[i])
    ensures step.agent in s.agents && !s.agents[step.agent].role.Launcher?
    ensures if i in s.path then step.Unlink? && s.agents[step.agent].phase == Unlinking(i) && i !in Apply(s, step).path
            else Apply(s, step).path[i] == Inode(i, s.generation) && (step.TouchFile? || step.OpenFile?)
    ensures forall j | j != i :: (j in s.path <==> j in Apply(s, step).path) && (j in s.path ==> s.path[j] == Apply(s, step).path[j])
  {
    if !step.Start? {
      assert AgentInv(s.agents[step.agent]);
    }
  }

  /** The lock file of a slot that an agent has open, locked or not. */
  predicate HasOpen(g: Agent, i: nat) {
    i in g.held || (g.file.Some? && g.next == i)
  }

  predicate OpenIs(g: Agent, i: nat, f: Inode) {
    (i in g.held ==> g.held[i] == f) && (g.file.Some? && g.next == i ==> g.file.value == f)
  }

  /** Every open lock file is the one that its name still denotes. */
  ghost predicate Named(s: State) {
    forall a, i | a in s.agents && HasOpen(s.agents[a], i) :: i in s.path && OpenIs(s.agents[a], i, s.path[i])
  }

  predicate InUse(s: State, i: nat) {
    exists a | a in s.agents :: HasOpen(s.agents[a], i)
  }

  /** No slot has two lock holders. */
  ghost predicate SlotExclusive(s: State) {
    forall a, b, i | a in s.agents && b in s.agents && i in s.agents[a].held && i in s.agents[b].held :: a == b
  }

  lemma NamedIsExclusive(s: State)
    requires Inv(s) && Named(s)
    ensures SlotExclusive(s)
  {
    forall a, b, i | a in s.agents && b in s.agents && i in s.agents[a].held && i in s.agents[b].held
      ensures a == b
    {
      assert HasOpen(s.agents[a], i) && HasOpen(s.agents[b], i);
      assert Holds(s, a, s.path[i]) && Holds(s, b, s.path[i]);
    }
  }

  /** A guarded section never overlaps a lease or another guarded section. */
  ghost predicate SectionsApart(s: State) {
    forall m, b | m in s.agents && b in s.agents && m != b && !s.agents[m].role.Launcher? && s.agents[m].phase == Inside ::
      s.agents[b].phase != Inside
  }

  lemma InsideHolds(g: Agent, i: nat)
    requires AgentInv(g) && g.phase == Inside && i < SLOTS
    ensures (if g.role.Launcher? then i == g.next else true) ==> i in g.held
  {
  }

  lemma ExclusiveSections(s: State)
    requires Inv(s) && SlotExclusive(s)
    ensures SectionsApart(s)
  {
    forall m, b | m in s.agents && b in s.agents && m != b && !s.agents[m].role.Launcher? && s.agents[m].phase == Inside
      ensures s.agents[b].phase != Inside
    {
      assert AgentInv(s.agents[m]) && AgentInv(s.agents[b]);
      var i := if s.agents[b].role.Launcher? then s.agents[b].next else 0;
      if s.agents[b].phase == Inside {
        InsideHolds(s.agents[b], i);
        InsideHolds(s.agents[m], i);
      }
    }
  }

  /** Removal unlinks the lock file of a slot that somebody has open. */
  predicate UnlinksInUse(s: State, step: Step) {
    && step.Unlink? && step.agent in s.agents && s.agents[step.agent].phase.Unlinking?
    && InUse(s, s.agents[step.agent].phase.slot)
  }

  /** What an agent has open after its own step it had open before, or just opened. */
  lemma SteppedNamed(s: State, step: Step, i: nat)
    requires Inv(s) && Named(s) && Enabled(s, step) && !step.Start?
    requires Stepped(s, step).Some? && HasOpen(Stepped(s, step).value, i)
    ensures i in Files(s, step).path && OpenIs(Stepped(s, step).value, i, Files(s, step).path[i])
  {
    var g := s.agents[step.agent];
    assert AgentInv(g);
    assert HasOpen(g, i) || (step.OpenFile? && i == g.next);
  }

  lemma OthersNamed(s: State, step: Step, a: nat, i: nat)
    requires Named(s) && Enabled(s, step) && !UnlinksInUse(s, step) && a in s.agents && HasOpen(s.agents[a], i)
    ensures i in Files(s, step).path && OpenIs(s.agents[a], i, Files(s, step).path[i])
  {
  }

  /** Only unlinking the file of a slot that somebody has open parts files from names, and that always does. */
  lemma NamedUnlessUnlinkedInUse(s: State, step: Step)
    requires Inv(s) && Named(s) && Enabled(s, step)
    ensures Named(Apply(s, step)) <==> !UnlinksInUse(s, step)
  {
    var t := Apply(s, step);
    if UnlinksInUse(s, step) {
      UnlinkParts(s, step);
    } else {
      forall a, i | a in t.agents && HasOpen(t.agents[a], i)
        ensures i in t.path && OpenIs(t.agents[a], i, t.path[i])
      {
        if a != step.agent {
          OthersNamed(s, step, a, i);
        } else if !step.Start? {
          SteppedNamed(s, step, i);
        }
      }
    }
  }

  lemma UnlinkParts(s: State, step: Step)
    requires Inv(s) && Enabled(s, step) && UnlinksInUse(s, step)
    ensures !Named(Apply(s, step))
  {
    var t, i := Apply(s, step), s.agents[step.agent].phase.slot;
    var a :| a in s.agents && HasOpen(s.agents[a], i);
    assert AgentInv(s.agents[step.agent]);
    assert a in t.agents && HasOpen(t.agents[a], i) && i !in t.path;
  }

  // ---------------------------------------------------------------- runs

  predicate Runs(s: State, steps: seq<Step>)
    decreases |steps|
  {
    steps == [] || (Enabled(s, steps[0]) && Runs(Apply(s, steps[0]), steps[1..]))
  }

  function Run(s: State, steps: seq<Step>): State
    requires Runs(s, steps)
    decreases |steps|
  {
    if steps == [] then s else Run(Apply(s, steps[0]), steps[1..])
  }

  ghost predicate NoUnlinkInUse(s: State, steps: seq<Step>)
    requires Runs(s, steps)
    decreases |steps|
  {
    steps != [] ==> !UnlinksInUse(s, steps[0]) && NoUnlinkInUse(Apply(s, steps[0]), steps[1..])
  }

  /** With any number of launchers and maintenance runs: locks exclude as long as no file in use is unlinked. */
  lemma {:induction false} LocksExclude(s: State, steps: seq<Step>)
    requires Inv(s) && Named(s) && Runs(s, steps) && NoUnlinkInUse(s, steps)
    ensures var z := Run(s, steps); Inv(z) && Named(z) && SlotExclusive(z) && SectionsApart(z)
    decreases |steps|
  {
    if steps == [] {
      NamedIsExclusive(s);
      ExclusiveSections(s);
    } else {
      ApplyInv(s, steps[0]);
      NamedUnlessUnlinkedInUse(s, steps[0]);
      LocksExclude(Apply(s, steps[0]), steps[1..]);
    }
  }

  /** At this step the launcher found the slot locked by another agent, or its carrier up under its own lock. */
  predicate SawBusy(s: State, step: Step, a: nat, i: nat) {
    && a in s.agents && s.agents[a].role.Launcher? && s.agents[a].next == i
    && (|| (step == TryLock(a) && s.agents[a].file.Some? && s.agents[a].file.value.slot == i && Taken(s, s.agents[a].file.value))
        || (step == CheckCarrier(a, true) && i in s.agents[a].held))
  }

  predicate SawBusyDuring(s: State, steps: seq<Step>, a: nat, i: nat)
    requires Runs(s, steps)
    decreases |steps|
  {
    steps != [] && (SawBusy(s, steps[0], a, i) || SawBusyDuring(Apply(s, steps[0]), steps[1..], a, i))
  }

  predicate Passed(s: State, a: nat, i: nat) {
    a in s.agents && s.agents[a].role.Launcher? && i < s.agents[a].next
  }

  /** A launcher passes a slot over only at a step at which it saw it busy; it gets its lease only at a step at
      which it holds the slot's lock and reads its carrier as down. */
  lemma LauncherStep(s: State, step: Step, a: nat, i: nat)
    requires Inv(s) && Enabled(s, step)
    ensures Passed(Apply(s, step), a, i) ==> Passed(s, a, i) || SawBusy(s, step, a, i)
    ensures a in Apply(s, step).agents && Apply(s, step).agents[a].role.Launcher? && Apply(s, step).agents[a].phase == Inside ==>
              || (a in s.agents && s.agents[a].phase == Inside)
              || (step == CheckCarrier(a, false) && a in s.agents && s.agents[a].next in s.agents[a].held)
  {
    if a in s.agents {
      assert AgentInv(s.agents[a]);
    }
  }

  /** A launcher that reports all slots busy saw each of the four busy since it began. */
  lemma {:induction false} BusyWasSeen(s: State, steps: seq<Step>, a: nat, i: nat)
    requires Inv(s) && Runs(s, steps) && !Passed(s, a, i)
    ensures Passed(Run(s, steps), a, i) ==> SawBusyDuring(s, steps, a, i)
    decreases |steps|
  {
    if steps != [] {
      LauncherStep(s, steps[0], a, i);
      ApplyInv(s, steps[0]);
      var t := Apply(s, steps[0]);
      if !Passed(t, a, i) {
        BusyWasSeen(t, steps[1..], a, i);
      }
    }
  }

  /** At this step the maintenance run held the slot's lock and read its carrier as down. */
  predicate SawFree(s: State, step: Step, a: nat, i: nat) {
    && step == CheckCarrier(a, false)
    && a in s.agents && !s.agents[a].role.Launcher? && s.agents[a].next == i && i in s.agents[a].held
  }

  predicate SawFreeDuring(s: State, steps: seq<Step>, a: nat, i: nat)
    requires Runs(s, steps)
    decreases |steps|
  {
    steps != [] && (SawFree(s, steps[0], a, i) || SawFreeDuring(Apply(s, steps[0]), steps[1..], a, i))
  }

  /** A maintenance run on its way in, or inside, behind this slot. */
  predicate Cleared(s: State, a: nat, i: nat) {
    a in s.agents && !s.agents[a].role.Launcher? && s.agents[a].phase in {Walking, Inside} && i < s.agents[a].next
  }

  /** A maintenance run gets behind a slot only at a step at which it holds the slot's lock and reads its carrier as
      down, and then keeps the lock; a carrier that is up, or a lock that another agent has, ends it. */
  lemma MaintenanceStep(s: State, step: Step, a: nat, i: nat)
    requires Inv(s) && Enabled(s, step)
    ensures Cleared(Apply(s, step), a, i) ==> i in Apply(s, step).agents[a].held && (Cleared(s, a, i) || SawFree(s, step, a, i))
    ensures SawFree(s, step, a, i) ==>
              Cleared(Apply(s, step), a, i) && (Apply(s, step).agents[a].phase == Inside <==> i == 3)
    ensures a in s.agents && !s.agents[a].role.Launcher?
            && (step == CheckCarrier(a, true) || (step == TryLock(a) && Taken(s, s.agents[a].file.value))) ==>
              a !in Apply(s, step).agents
  {
    if a in s.agents {
      assert AgentInv(s.agents[a]);
    }
  }

  lemma {:induction false} ClearedWasSeen(s: State, steps: seq<Step>, a: nat, i: nat)
    requires Inv(s) && Runs(s, steps) && !Cleared(s, a, i)
    ensures Cleared(Run(s, steps), a, i) ==> SawFreeDuring(s, steps, a, i)
    decreases |steps|
  {
    if steps != [] {
      MaintenanceStep(s, steps[0], a, i);
      ApplyInv(s, steps[0]);
      var t := Apply(s, steps[0]);
      if !Cleared(t, a, i) {
        ClearedWasSeen(t, steps[1..], a, i);
      }
    }
  }

  /** Over any run: restore or removal, not begun before, is inside only if it read each of the four carriers as
      down under the lock of its slot, and it holds all four locks. */
  lemma SectionSawAllFree(s: State, steps: seq<Step>, a: nat)
    requires Inv(s) && Runs(s, steps)
    requires a in s.agents ==> s.agents[a].next == 0
    requires a in Run(s, steps).agents && !Run(s, steps).agents[a].role.Launcher? && Run(s, steps).agents[a].phase == Inside
    ensures forall i: nat | i < 4 :: SawFreeDuring(s, steps, a, i) && i in Run(s, steps).agents[a].held
  {
    RunInv(s, steps);
    var g := Run(s, steps).agents[a];
    assert AgentInv(g);
    forall i: nat | i < 4
      ensures SawFreeDuring(s, steps, a, i) && i in g.held
    {
      ClearedWasSeen(s, steps, a, i);
    }
  }

  /** Removal behind this slot's name. */
  predicate Unlinked(s: State, a: nat, i: nat) {
    a in s.agents && s.agents[a].role.Removal? && s.agents[a].phase.Unlinking? && i < s.agents[a].phase.slot
  }

  /** Removal comes to the names only when it has no lock any more, gets behind one only by the step that takes it away,
      and can always take the next one; and any agent can leave at any time, with all it had. */
  lemma UnlinkStep(s: State, step: Step, a: nat, i: nat)
    requires Inv(s) && Enabled(s, step)
    ensures Unlinked(Apply(s, step), a, i) ==>
              || Unlinked(s, a, i)
              || (step == Unlink(a) && a in s.agents && s.agents[a].phase == Unlinking(i) && i !in Apply(s, step).path)
    ensures a in s.agents && s.agents[a].phase.Unlinking? && s.agents[a].phase.slot < 4 ==>
              && s.agents[a].held == map[] && Enabled(s, Unlink(a))
              && Unlinked(Apply(s, Unlink(a)), a, s.agents[a].phase.slot)
    ensures a in s.agents ==> Enabled(s, Leave(a)) && a !in Apply(s, Leave(a)).agents
  {
    if a in s.agents {
      assert AgentInv(s.agents[a]);
    }
  }

  lemma {:induction false} RunInv(s: State, steps: seq<Step>)
    requires Inv(s) && Runs(s, steps)
    ensures Inv(Run(s, steps))
    decreases |steps|
  {
    if steps != [] {
      ApplyInv(s, steps[0]);
      RunInv(Apply(s, steps[0]), steps[1..]);
    }
  }

  /** Right after setup: four lock files and nobody there. */
  const FRESH := State(map[0 := Inode(0, 0), 1 := Inode(1, 1), 2 := Inode(2, 2), 3 := Inode(3, 3)], 4, map[])

  lemma FromFresh(steps: seq<Step>)
    requires Runs(FRESH, steps) && NoUnlinkInUse(FRESH, steps)
    ensures SlotExclusive(Run(FRESH, steps)) && SectionsApart(Run(FRESH, steps))
  {
    LocksExclude(FRESH, steps);
  }
}
