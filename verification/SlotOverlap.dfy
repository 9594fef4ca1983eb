/**
 What unlinking a lock file in use leads to: from every state in which names and open files
 agree, it is exactly the step after which two agents can come to hold the lock of one slot.
 */
module SlotOverlap {
  import opened Wrappers
  import opened SlotLocks

  /** `quiet`: on the way no file in use is unlinked. */
  ghost predicate Leads(s: State, steps: seq<Step>, t: State, quiet: bool) {
    Runs(s, steps) && (quiet ==> NoUnlinkInUse(s, steps)) && Run(s, steps) == t
  }

  ghost predicate Reaches(s: State, t: State, quiet: bool) {
    exists steps :: Leads(s, steps, t, quiet)
  }

  lemma Stay(s: State, quiet: bool)
    ensures Reaches(s, s, quiet)
  {
    assert Leads(s, [], s, quiet);
  }

  lemma StepFirst(s: State, step: Step, t: State, quiet: bool)
    requires Enabled(s, step) && (quiet ==> !UnlinksInUse(s, step)) && Reaches(Apply(s, step), t, quiet)
    ensures Reaches(s, t, quiet)
  {
    var rest :| Leads(Apply(s, step), rest, t, quiet);
    var steps := [step] + rest;
    assert steps[0] == step && steps[1..] == rest;
    assert Leads(s, steps, t, quiet);
  }

  lemma {:induction false} Through(s: State, steps: seq<Step>, t: State, u: State, quiet: bool)
    requires Leads(s, steps, t, quiet) && Reaches(t, u, quiet)
    ensures Reaches(s, u, quiet)
    decreases |steps|
  {
    if steps != [] {
      Through(Apply(s, steps[0]), steps[1..], t, u, quiet);
      StepFirst(s, steps[0], u, quiet);
    }
  }

  lemma Twice(s: State, t: State, u: State, quiet: bool)
    requires Reaches(s, t, quiet) && Reaches(t, u, quiet)
    ensures Reaches(s, u, quiet)
  {
    var steps :| Leads(s, steps, t, quiet);
    Through(s, steps, t, u, quiet);
  }

  /** One step that unlinks nothing. */
  lemma Once(s: State, step: Step, quiet: bool)
    requires Inv(s) && Enabled(s, step) && (quiet ==> !UnlinksInUse(s, step))
    ensures Reaches(s, Apply(s, step), quiet) && Inv(Apply(s, step))
  {
    Stay(Apply(s, step), quiet);
    StepFirst(s, step, Apply(s, step), quiet);
    ApplyInv(s, step);
  }

  lemma {:induction false} NewId(taken: set<nat>) returns (id: nat)
    ensures forall x | x in taken :: x < id
    decreases taken
  {
    if taken == {} {
      id := 0;
    } else {
      var x :| x in taken;
      var other := NewId(taken - {x});
      id := if other <= x then x + 1 else other;
      forall y | y in taken ensures y < id {
        assert y == x || y in taken - {x};
      }
    }
  }

  // ---------------------------------------------------------------- single steps

  /** Names stay as they were, and a new name denotes a file of a new generation. */
  ghost predicate OnlyNewNames(s: State, t: State) {
    && s.generation <= t.generation
    && (forall k | k in s.path :: k in t.path && t.path[k] == s.path[k])
    && (forall k | k in t.path && k !in s.path :: t.path[k].generation >= s.generation)
  }

  /** One agent became this, and the others are as they were. */
  ghost predicate Turned(s: State, t: State, a: nat, g: Agent) {
    t.agents == s.agents[a := g]
  }

  lemma TurnedTwice(s: State, u: State, t: State, a: nat, g: Agent, h: Agent)
    requires Turned(s, u, a, g) && Turned(u, t, a, h)
    ensures Turned(s, t, a, h)
  {
    assert s.agents[a := g][a := h] == s.agents[a := h];
  }

  lemma NamesTwice(s: State, u: State, t: State)
    requires OnlyNewNames(s, u) && OnlyNewNames(u, t)
    ensures OnlyNewNames(s, t)
  {
  }

  ghost predicate HasNames(s: State, j: nat) {
    forall k | j <= k < SLOTS :: k in s.path
  }

  lemma NamesFrom(s: State, t: State, j: nat)
    requires OnlyNewNames(s, t) && j in s.path && HasNames(t, j + 1)
    ensures HasNames(t, j)
  {
  }

  lemma Starts(s: State, a: nat, role: Role, quiet: bool) returns (t: State)
    requires Inv(s) && a !in s.agents
    ensures Reaches(s, t, quiet) && Inv(t)
    ensures t.path == s.path && OnlyNewNames(s, t)
    ensures Turned(s, t, a, Agent(role, if role.Restore? then Touching(0) else Walking, 0, None, map[], []))
  {
    hide Reaches, Inv;
    Once(s, Start(a, role), quiet);
    t := Apply(s, Start(a, role));
  }

  lemma Opens(s: State, a: nat, quiet: bool) returns (t: State)
    requires Inv(s) && a in s.agents && s.agents[a].phase == Walking && s.agents[a].next < SLOTS
    requires s.agents[a].file.None? && s.agents[a].next !in s.agents[a].held
    requires s.agents[a].role.Launcher? ==> s.agents[a].next in s.path
    ensures Reaches(s, t, quiet) && Inv(t) && OnlyNewNames(s, t) && s.agents[a].next in t.path
    ensures Turned(s, t, a, s.agents[a].(file := Some(t.path[s.agents[a].next])))
    ensures s.agents[a].next in s.path ==> t.path == s.path
  {
    hide Reaches, Inv;
    Once(s, OpenFile(a), quiet);
    t := Apply(s, OpenFile(a));
  }

  lemma Locks(s: State, a: nat, quiet: bool) returns (t: State)
    requires Inv(s) && a in s.agents && s.agents[a].file.Some? && !Taken(s, s.agents[a].file.value)
    ensures Reaches(s, t, quiet) && Inv(t)
    ensures var g := s.agents[a];
            && t.path == s.path && t.generation == s.generation
            && Turned(s, t, a, g.(file := None, held := g.held[g.next := g.file.value]))
  {
    hide Reaches;
    assert AgentInv(s.agents[a]);
    Once(s, TryLock(a), quiet);
    t := Apply(s, TryLock(a));
  }

  /** A launcher that turns away, from a lock or from a carrier. */
  lemma TurnsAway(s: State, a: nat, quiet: bool) returns (t: State)
    requires Inv(s) && a in s.agents && s.agents[a].role.Launcher? && s.agents[a].phase == Walking
    requires if s.agents[a].file.Some? then Taken(s, s.agents[a].file.value) else s.agents[a].next in s.agents[a].held
    ensures Reaches(s, t, quiet) && Inv(t)
    ensures t.path == s.path && a in t.agents && Turned(s, t, a, t.agents[a])
    ensures t.agents[a].role.Launcher? && t.agents[a].phase == Walking && t.agents[a].file.None?
    ensures t.agents[a].next == s.agents[a].next + 1 && t.agents[a].held == s.agents[a].held - {s.agents[a].next}
  {
    var why := if s.agents[a].file.Some? then SawLock else SawCarrier;
    var step := if why == SawLock then TryLock(a) else CheckCarrier(a, true);
    Once(s, step, quiet);
    t := Apply(s, step);
    assert t.agents[a] == TurnAway(s.agents[a], why).value;
  }

  // ---------------------------------------------------------------- restore creates the missing files

  lemma TouchEffect(s: State, r: nat, j: nat)
    requires r in s.agents && s.agents[r].phase == Touching(j) && j < SLOTS
    ensures Enabled(s, TouchFile(r))
    ensures var t := Apply(s, TouchFile(r));
            && OnlyNewNames(s, t) && j in t.path
            && Turned(s, t, r, s.agents[r].(phase := if j + 1 < SLOTS then Touching(j + 1) else Walking))
  {
    assert Touches(s, TouchFile(r)) == Some(j);
  }

  lemma TouchOnce(s: State, r: nat, j: nat, quiet: bool) returns (t: State)
    requires Inv(s) && r in s.agents && s.agents[r].phase == Touching(j) && j < SLOTS
    ensures Reaches(s, t, quiet) && Inv(t) && OnlyNewNames(s, t) && j in t.path
    ensures Turned(s, t, r, s.agents[r].(phase := if j + 1 < SLOTS then Touching(j + 1) else Walking))
  {
    TouchEffect(s, r, j);
    Once(s, TouchFile(r), quiet);
    t := Apply(s, TouchFile(r));
  }

  lemma {:induction false} TouchAll(s: State, r: nat, j: nat, quiet: bool) returns (t: State)
    requires Inv(s) && r in s.agents && s.agents[r].phase == Touching(j) && j < SLOTS
    ensures Reaches(s, t, quiet) && Inv(t) && OnlyNewNames(s, t)
    ensures Turned(s, t, r, s.agents[r].(phase := Walking)) && HasNames(t, j)
    decreases SLOTS - j
  {
    hide Reaches;
    var u := TouchOnce(s, r, j, quiet);
    t := u;
    if j + 1 < SLOTS {
      t := TouchAll(u, r, j + 1, quiet);
      Twice(s, u, t, quiet);
      NamesTwice(s, u, t);
      NamesFrom(u, t, j);
      TurnedTwice(s, u, t, r, u.agents[r], t.agents[r]);
    }
  }

  // ---------------------------------------------------------------- a launcher comes to a slot

  ghost predicate Idle(g: Agent, j: nat) {
    g.role.Launcher? && g.phase == Walking && g.next == j && g.file.None? && g.held == map[]
  }

  /** Another agent holds the lock of slot `i` on a file that lost its name, and the launcher has come to slot `j`. */
  ghost predicate Awaits(s: State, launcher: nat, holder: nat, i: nat, j: nat) {
    && Inv(s) && launcher != holder && j <= i < SLOTS
    && launcher in s.agents && Idle(s.agents[launcher], j)
    && holder in s.agents && i in s.agents[holder].held
    && HasNames(s, 0) && !Taken(s, s.path[i])
  }

  /** The launcher has the file of its slot open. */
  lemma OpensSlot(s: State, launcher: nat, holder: nat, i: nat, j: nat) returns (t: State)
    requires Awaits(s, launcher, holder, i, j)
    ensures Reaches(s, t, true) && Inv(t) && t.path == s.path
    ensures Turned(s, t, launcher, s.agents[launcher].(file := Some(s.path[j])))
    ensures forall f :: Taken(t, f) <==> Taken(s, f)
  {
    t := Opens(s, launcher, true);
    assert forall f, b | b in s.agents :: Holds(t, b, f) <==> Holds(s, b, f);
  }

  lemma LocksSlot(s: State, launcher: nat, holder: nat, i: nat) returns (t: State)
    requires Awaits(s, launcher, holder, i, i)
    ensures Reaches(s, t, true) && !SlotExclusive(t)
  {
    hide Reaches;
    var u := OpensSlot(s, launcher, holder, i, i);
    t := Locks(u, launcher, true);
    Twice(s, u, t, true);
    assert i in t.agents[launcher].held && i in t.agents[holder].held;
  }

  /** A slot before that one is locked by somebody, or its carrier is up. */
  lemma PassesSlot(s: State, launcher: nat, holder: nat, i: nat, j: nat) returns (t: State)
    requires Awaits(s, launcher, holder, i, j) && j < i
    ensures Reaches(s, t, true) && Awaits(t, launcher, holder, i, j + 1)
  {
    hide Reaches;
    var u := OpensSlot(s, launcher, holder, i, j);
    if !Taken(u, u.agents[launcher].file.value) {
      var v := Locks(u, launcher, true);
      Twice(s, u, v, true);
      TurnedTwice(s, u, v, launcher, u.agents[launcher], v.agents[launcher]);
      u := v;
    }
    t := TurnsAway(u, launcher, true);
    Twice(s, u, t, true);
    TurnedTwice(s, u, t, launcher, u.agents[launcher], t.agents[launcher]);
    StillAwaits(s, t, launcher, holder, i, j);
  }

  lemma StillAwaits(s: State, t: State, launcher: nat, holder: nat, i: nat, j: nat)
    requires Awaits(s, launcher, holder, i, j) && j < i && Inv(t) && t.path == s.path
    requires launcher in t.agents && Idle(t.agents[launcher], j + 1)
    requires Turned(s, t, launcher, t.agents[launcher])
    ensures Awaits(t, launcher, holder, i, j + 1)
  {
    forall b | b in t.agents ensures !Holds(t, b, t.path[i]) {
      assert b in s.agents && !Holds(s, b, s.path[i]);
    }
  }

  lemma {:induction false} ComesToSlot(s: State, launcher: nat, holder: nat, i: nat, j: nat) returns (t: State)
    requires Awaits(s, launcher, holder, i, j)
    ensures Reaches(s, t, true) && !SlotExclusive(t)
    decreases i - j
  {
    hide Reaches;
    if i == j {
      t := LocksSlot(s, launcher, holder, i);
    } else {
      var u := PassesSlot(s, launcher, holder, i, j);
      t := ComesToSlot(u, launcher, holder, i, j + 1);
      Twice(s, u, t, true);
    }
  }

  // ---------------------------------------------------------------- the step that decides

  /** An agent that has a nameless file open gets its lock, unless another one has it. */
  lemma SomebodyHolds(s: State, a: nat, i: nat) returns (t: State, holder: nat)
    requires Inv(s) && a in s.agents && HasOpen(s.agents[a], i) && i !in s.path
    ensures Reaches(s, t, true) && Inv(t) && i !in t.path && i < SLOTS
    ensures holder in t.agents && i in t.agents[holder].held
  {
    assert AgentInv(s.agents[a]);
    Stay(s, true);
    t, holder := s, a;
    if i !in s.agents[a].held {
      var f := s.agents[a].file.value;
      if Taken(s, f) {
        var b :| b in s.agents && Holds(s, b, f);
        holder := b;
      } else {
        t := Locks(s, a, true);
      }
    }
  }

  /** A newcomer without locks holds nothing, and nobody holds a file that was made after all agents opened theirs. */
  lemma NobodyHoldsNew(s: State, t: State, r: nat, g: Agent, i: nat)
    requires Inv(s) && Turned(s, t, r, g) && g.held == map[] && OnlyNewNames(s, t) && i in t.path && i !in s.path
    ensures !Taken(t, t.path[i])
  {
    forall b | b in t.agents ensures !Holds(t, b, t.path[i]) {
      assert b != r ==> Born(s, s.agents[b]) && t.agents[b] == s.agents[b];
    }
  }

  lemma NobodyHoldsStill(s: State, t: State, r: nat, g: Agent, i: nat)
    requires Turned(s, t, r, g) && g.held == map[] && i in s.path && !Taken(s, s.path[i])
    ensures !Taken(t, s.path[i])
  {
    forall b | b in t.agents ensures !Holds(t, b, s.path[i]) {
      assert b != r ==> !Holds(s, b, s.path[i]);
    }
  }

  /** A newcomer restores the missing names. */
  lemma Restores(s: State, quiet: bool) returns (t: State, r: nat)
    requires Inv(s)
    ensures r !in s.agents && Reaches(s, t, quiet) && Inv(t) && OnlyNewNames(s, t) && HasNames(t, 0)
    ensures Turned(s, t, r, Agent(Restore, Walking, 0, None, map[], []))
  {
    hide Reaches;
    r := NewId(s.agents.Keys);
    var u := Starts(s, r, Restore, quiet);
    t := TouchAll(u, r, 0, quiet);
    Twice(s, u, t, quiet);
    NamesTwice(s, u, t);
    TurnedTwice(s, u, t, r, u.agents[r], t.agents[r]);
  }

  /** Restore makes a new file of that name, and a launcher locks it. */
  lemma SecondHolder(s: State, holder: nat, i: nat) returns (t: State)
    requires Inv(s) && holder in s.agents && i in s.agents[holder].held && i !in s.path && i < SLOTS
    ensures Reaches(s, t, true) && !SlotExclusive(t)
  {
    hide Reaches;
    var u, r := Restores(s, true);
    NobodyHoldsNew(s, u, r, u.agents[r], i);
    t := NextLauncher(u, holder, i);
    Twice(s, u, t, true);
  }

  lemma NextLauncher(s: State, holder: nat, i: nat) returns (t: State)
    requires Inv(s) && holder in s.agents && i in s.agents[holder].held && HasNames(s, 0) && i < SLOTS
    requires !Taken(s, s.path[i])
    ensures Reaches(s, t, true) && !SlotExclusive(t)
  {
    hide Reaches;
    var launcher := NewId(s.agents.Keys);
    var u := Starts(s, launcher, Launcher, true);
    NobodyHoldsStill(s, u, launcher, u.agents[launcher], i);
    t := ComesToSlot(u, launcher, holder, i, 0);
    Twice(s, u, t, true);
  }

  /** From here two agents can come to hold the lock of one slot although no further file in use is unlinked. */
  ghost predicate Breaks(s: State) {
    exists t :: Reaches(s, t, true) && !SlotExclusive(t)
  }

  lemma OpenBreaks(s: State, a: nat, i: nat)
    requires Inv(s) && a in s.agents && HasOpen(s.agents[a], i) && i !in s.path
    ensures Breaks(s)
  {
    var u, holder := SomebodyHolds(s, a, i);
    var t := SecondHolder(u, holder, i);
    Twice(s, u, t, true);
  }

  lemma UnlinkBreaks(s: State, step: Step)
    requires Inv(s) && Enabled(s, step) && UnlinksInUse(s, step)
    ensures Breaks(Apply(s, step))
  {
    var i := s.agents[step.agent].phase.slot;
    var a :| a in s.agents && HasOpen(s.agents[a], i);
    ApplyInv(s, step);
    assert AgentInv(s.agents[step.agent]);
    OpenBreaks(Apply(s, step), a, i);
  }

  /** In any state in which names and open files agree, exactly the unlinking of a lock file in use opens the way to
      two holders of one slot: without it no run gets there, with it some run does. */
  lemma UnlinkInUseDecides(s: State, step: Step)
    requires Inv(s) && Named(s) && Enabled(s, step)
    ensures UnlinksInUse(s, step) <==> Breaks(Apply(s, step))
  {
    if UnlinksInUse(s, step) {
      UnlinkBreaks(s, step);
    } else if Breaks(Apply(s, step)) {
      var t :| Reaches(Apply(s, step), t, true) && !SlotExclusive(t);
      var steps :| Leads(Apply(s, step), steps, t, true);
      ApplyInv(s, step);
      NamedUnlessUnlinkedInUse(s, step);
      LocksExclude(Apply(s, step), steps);
    }
  }

  // ---------------------------------------------------------------- a run that gets there

  /** The carrier is down under the agent's lock. */
  lemma Sees(s: State, a: nat, quiet: bool) returns (t: State)
    requires Inv(s) && a in s.agents && s.agents[a].phase == Walking && s.agents[a].next in s.agents[a].held
    ensures Reaches(s, t, quiet) && Inv(t) && t.path == s.path && t.generation == s.generation
    ensures var g := s.agents[a];
            Turned(s, t, a, if g.role.Launcher? then g.(phase := Inside)
                            else g.(next := g.next + 1, phase := if g.next + 1 == SLOTS then Inside else Walking))
  {
    hide Reaches, Inv;
    Once(s, CheckCarrier(a, false), quiet);
    t := Apply(s, CheckCarrier(a, false));
  }

  lemma Releases(s: State, a: nat, quiet: bool) returns (t: State)
    requires Inv(s) && a in s.agents && s.agents[a].phase == Releasing && s.agents[a].next > 0
    ensures Reaches(s, t, quiet) && Inv(t) && t.path == s.path && t.generation == s.generation
    ensures var g := s.agents[a];
            Turned(s, t, a, g.(next := g.next - 1, held := g.held - {g.next - 1},
                               phase := if g.next == 1 then Unlinking(0) else Releasing))
  {
    hide Reaches, Inv;
    Once(s, Release(a), quiet);
    t := Apply(s, Release(a));
  }

  lemma {:induction false} ReleasesAll(s: State, a: nat, quiet: bool) returns (t: State)
    requires Inv(s) && a in s.agents && s.agents[a].phase == Releasing && s.agents[a].next > 0
    ensures Reaches(s, t, quiet) && Inv(t) && t.path == s.path && t.generation == s.generation
    ensures a in t.agents && Turned(s, t, a, t.agents[a]) && t.agents[a].phase == Unlinking(0)
    decreases s.agents[a].next
  {
    hide Reaches;
    t := Releases(s, a, quiet);
    if s.agents[a].next > 1 {
      var u := t;
      t := ReleasesAll(u, a, quiet);
      Twice(s, u, t, quiet);
      TurnedTwice(s, u, t, a, u.agents[a], t.agents[a]);
    }
  }

  /** Removal ends its guarded section, gives all locks back and unlinks the first file. */
  lemma Finishes(s: State, a: nat) returns (t: State)
    requires Inv(s) && a in s.agents && s.agents[a].phase == Inside && s.agents[a].role.Removal?
    ensures Reaches(s, t, false) && Inv(t) && a in t.agents && Turned(s, t, a, t.agents[a]) && t.agents[a].phase == Unlinking(0)
    ensures t.path == s.path && t.generation == s.generation
  {
    hide Reaches;
    assert AgentInv(s.agents[a]);
    Once(s, Finish(a), false);
    var u := Apply(s, Finish(a));
    assert Turned(s, u, a, u.agents[a]);
    t := ReleasesAll(u, a, false);
    Twice(s, u, t, false);
    TurnedTwice(s, u, t, a, u.agents[a], t.agents[a]);
  }

  lemma Unlinks(s: State, a: nat) returns (t: State)
    requires Inv(s) && a in s.agents && s.agents[a].phase == Unlinking(0)
    ensures Reaches(s, t, false) && Inv(t) && a in t.agents && Turned(s, t, a, t.agents[a])
    ensures t.path == s.path - {0} && t.agents[a].held == map[]
  {
    assert AgentInv(s.agents[a]);
    Once(s, Unlink(a), false);
    t := Apply(s, Unlink(a));
    assert t.agents[a].held == map[];
  }

  /** A maintenance run that has locked the slots below `j` finds the others free. */
  ghost predicate Clear(s: State, m: nat, j: nat) {
    && Inv(s) && m in s.agents && !s.agents[m].role.Launcher? && s.agents[m].phase == Walking
    && s.agents[m].next == j < SLOTS && s.agents[m].file.None? && j !in s.agents[m].held
    && forall k | j <= k < SLOTS && k in s.path :: !Taken(s, s.path[k])
  }

  lemma OpensFree(s: State, m: nat, j: nat, quiet: bool) returns (t: State)
    requires Clear(s, m, j)
    ensures Reaches(s, t, quiet) && Inv(t) && OnlyNewNames(s, t) && j in t.path && !Taken(t, t.path[j])
    ensures Turned(s, t, m, s.agents[m].(file := Some(t.path[j])))
  {
    t := Opens(s, m, quiet);
    forall b | b in t.agents ensures !Holds(t, b, t.path[j]) {
      assert t.agents[b].held == s.agents[b].held && Born(s, s.agents[b]);
      assert j in s.path ==> !Holds(s, b, s.path[j]);
    }
  }

  /** The locks of the others, and the one that was taken, are none of those still to come. */
  lemma ClearNext(s: State, t: State, m: nat, j: nat)
    requires Clear(s, m, j) && j + 1 < SLOTS && Inv(t) && OnlyNewNames(s, t)
    requires m in t.agents && Turned(s, t, m, t.agents[m])
    requires var g := t.agents[m];
             !g.role.Launcher? && g.phase == Walking && g.next == j + 1 && g.file.None? && j + 1 !in g.held
    ensures Clear(t, m, j + 1)
  {
    assert AgentInv(t.agents[m]);
    forall k | j + 1 <= k < SLOTS && k in t.path
      ensures !Taken(t, t.path[k])
    {
      forall b | b in t.agents ensures !Holds(t, b, t.path[k]) {
        assert b != m ==> Born(s, s.agents[b]) && (k in s.path ==> !Holds(s, b, s.path[k]));
      }
    }
  }

  lemma TakesFree(s: State, m: nat, j: nat, quiet: bool) returns (t: State)
    requires Clear(s, m, j)
    ensures Reaches(s, t, quiet) && Inv(t) && OnlyNewNames(s, t)
    ensures m in t.agents && Turned(s, t, m, t.agents[m]) && t.agents[m].role == s.agents[m].role
    ensures var g := t.agents[m]; g.phase == Walking && g.next == j && g.file.None? && j in g.held
  {
    hide Reaches;
    var u := OpensFree(s, m, j, quiet);
    t := Locks(u, m, quiet);
    Twice(s, u, t, quiet);
    TurnedTwice(s, u, t, m, u.agents[m], t.agents[m]);
  }

  lemma LocksFree(s: State, m: nat, j: nat, quiet: bool) returns (t: State)
    requires Clear(s, m, j)
    ensures Reaches(s, t, quiet) && Inv(t) && OnlyNewNames(s, t)
    ensures m in t.agents && Turned(s, t, m, t.agents[m]) && t.agents[m].role == s.agents[m].role
    ensures if j + 1 == SLOTS then t.agents[m].phase == Inside else Clear(t, m, j + 1)
  {
    hide Reaches;
    var u := TakesFree(s, m, j, quiet);
    t := Sees(u, m, quiet);
    Twice(s, u, t, quiet);
    TurnedTwice(s, u, t, m, u.agents[m], t.agents[m]);
    if j + 1 < SLOTS {
      assert AgentInv(t.agents[m]);
      ClearNext(s, t, m, j);
    }
  }

  lemma {:induction false} LocksAll(s: State, m: nat, j: nat, quiet: bool) returns (t: State)
    requires Clear(s, m, j)
    ensures Reaches(s, t, quiet) && Inv(t) && OnlyNewNames(s, t)
    ensures m in t.agents && Turned(s, t, m, t.agents[m]) && t.agents[m].role == s.agents[m].role && t.agents[m].phase == Inside
    decreases SLOTS - j
  {
    hide Reaches;
    t := LocksFree(s, m, j, quiet);
    if j + 1 < SLOTS {
      var u := t;
      t := LocksAll(u, m, j + 1, quiet);
      Twice(s, u, t, quiet);
      NamesTwice(s, u, t);
      TurnedTwice(s, u, t, m, u.agents[m], t.agents[m]);
    }
  }

  const OPENED := Agent(Launcher, Walking, 0, Some(Inode(0, 0)), map[], [])
  const LEASED := Agent(Launcher, Inside, 0, None, map[0 := Inode(0, 0)], [])

  lemma FreshIsGood()
    ensures Inv(FRESH)
  {
  }

  /** Only a launcher is there; it has opened the file of slot 0. */
  lemma LauncherOpens() returns (t: State)
    ensures Reaches(FRESH, t, false) && Inv(t) && t.agents == map[0 := OPENED]
  {
    hide Reaches, Inv, OnlyNewNames;
    FreshIsGood();
    var s := Starts(FRESH, 0, Launcher, false);
    t := Opens(s, 0, false);
    Twice(FRESH, s, t, false);
  }

  lemma NothingTaken(s: State, f: Inode)
    requires forall b | b in s.agents :: s.agents[b].held == map[]
    ensures !Taken(s, f)
  {
    forall b | b in s.agents ensures !Holds(s, b, f) {
    }
  }

  /** A removal that starts behind it comes into its guarded section. */
  lemma RemovalBehindLauncher(s: State) returns (t: State)
    requires Inv(s) && s.agents == map[0 := OPENED]
    ensures Reaches(s, t, false) && Inv(t) && t.agents.Keys == {0, 1} && t.agents[0] == OPENED
    ensures t.agents[1].role.Removal? && t.agents[1].phase == Inside
  {
    hide Reaches, Inv, OnlyNewNames;
    var u := Starts(s, 1, Removal, false);
    assert u.agents == map[0 := OPENED, 1 := Agent(Removal, Walking, 0, None, map[], [])];
    forall k | k in u.path ensures !Taken(u, u.path[k]) {
      NothingTaken(u, u.path[k]);
    }
    assert Clear(u, 1, 0);
    t := LocksAll(u, 1, 0, false);
    Twice(s, u, t, false);
  }

  /** The removal ends and unlinks that file. */
  lemma RemovalUnlinks(s: State) returns (t: State)
    requires Inv(s) && s.agents.Keys == {0, 1} && s.agents[0] == OPENED
    requires s.agents[1].role.Removal? && s.agents[1].phase == Inside
    ensures Reaches(s, t, false) && Inv(t) && t.agents.Keys == {0, 1} && t.agents[0] == OPENED
    ensures t.agents[1].held == map[] && 0 !in t.path
  {
    hide Reaches;
    var u := Finishes(s, 1);
    t := Unlinks(u, 1);
    Twice(s, u, t, false);
  }

  /** The launcher gets its lease on the nameless file. */
  lemma LauncherGetsLease(s: State) returns (t: State)
    requires Inv(s) && s.agents.Keys == {0, 1} && s.agents[0] == OPENED && s.agents[1].held == map[] && 0 !in s.path
    ensures Reaches(s, t, false) && Inv(t) && t.agents.Keys == {0, 1} && 0 !in t.path
    ensures t.agents[0] == LEASED && t.agents[1].held == map[]
  {
    hide Reaches;
    NothingTaken(s, Inode(0, 0));
    var u := Locks(s, 0, false);
    t := Sees(u, 0, false);
    Twice(s, u, t, false);
  }

  /** The next restore makes the file anew and enters its guarded section. */
  lemma SetupBesideLease(s: State) returns (t: State)
    requires Inv(s) && s.agents.Keys == {0, 1} && s.agents[0] == LEASED && s.agents[1].held == map[] && 0 !in s.path
    ensures Reaches(s, t, false) && !SlotExclusive(t) && !SectionsApart(t)
  {
    hide Reaches;
    var u, r := Restores(s, false);
    NobodyHoldsNew(s, u, r, u.agents[r], 0);
    assert Clear(u, r, 0);
    t := LocksAll(u, r, 0, false);
    Twice(s, u, t, false);
    assert AgentInv(t.agents[r]) && 0 in t.agents[r].held;
    assert t.agents[0] == LEASED && 0 in t.agents[0].held;
  }

  /** From a fresh setup: removal unlinks the lock file that a launcher has open, the launcher gets its lease on the
      nameless file, and the next restore enters its guarded section beside it. */
  lemma LeaseAndSetupOverlap()
    ensures exists t :: Reaches(FRESH, t, false) && !SlotExclusive(t) && !SectionsApart(t)
  {
    hide Reaches;
    var s := LauncherOpens();
    var u := RemovalBehindLauncher(s);
    Twice(FRESH, s, u, false);
    var v := RemovalUnlinks(u);
    Twice(FRESH, u, v, false);
    var w := LauncherGetsLease(v);
    Twice(FRESH, v, w, false);
    var t := SetupBesideLease(w);
    Twice(FRESH, w, t, false);
  }
}
