/**
 The engine stages of the finite journey: the engine is selected from one census, and later
 killed or confirmed gone through the pidfds that were kept for its process group.
 */
module EngineStage {
  import opened Wrappers
  import opened Kernel
  import opened FiniteObserver
  import opened Sets

  /** An idle stage lasts at least these seconds. */
  const IDLE_MINIMUM: real := 50.0

  /** One round of a stage: it is over, goes on, or failed. */
  datatype Round = Done | Again | Failed

  /** `isGuard`: the role that the command line gives, which is not modelled. */
  datatype Layout = Layout(binary: string, provider: string, isGuard: Identity -> bool, runtime: nat)

  /** The engine's parent is a guard, and the guard's parent a provider that the Runtime started. */
  predicate IsEngine(l: Layout, known: map<nat, Identity>, current: set<nat>, pid: nat) {
    && current <= known.Keys
    && pid in current && known[pid].exe.path == l.binary
    && var guard := known[pid].parent;
    && guard in current && l.isGuard(known[guard]) && known[guard].exe.path == l.provider
    && var adapter := known[guard].parent;
    && adapter in current && known[adapter].exe.path == l.provider && known[adapter].parent == l.runtime
  }

  /** An engine stands at the end of a chain in the census: the Runtime's child is a provider, that one's child a guard
      that runs the provider's program, and the guard's child runs the engine's. */
  lemma EngineChain(l: Layout, known: map<nat, Identity>, current: set<nat>, pid: nat)
    requires current <= known.Keys
    ensures IsEngine(l, known, current, pid) <==>
              exists guard, adapter | guard in current && adapter in current ::
                && pid in current && known[pid].parent == guard && known[guard].parent == adapter && known[adapter].parent == l.runtime
                && known[pid].exe.path == l.binary && known[guard].exe.path == known[adapter].exe.path == l.provider
                && l.isGuard(known[guard])
  {
  }

  ghost predicate AreEngines(l: Layout, known: map<nat, Identity>, current: set<nat>, found: set<nat>) {
    current <= known.Keys && forall pid :: pid in found <==> IsEngine(l, known, current, pid)
  }

  /** No process of the census is an engine, */
  ghost predicate NoEngine(l: Layout, known: map<nat, Identity>, current: set<nat>) {
    forall pid :: !IsEngine(l, known, current, pid)
  }

  /** exactly this one is, */
  ghost predicate SoleEngine(l: Layout, known: map<nat, Identity>, current: set<nat>, engine: nat) {
    forall pid :: IsEngine(l, known, current, pid) <==> pid == engine
  }

  /** or two are. */
  ghost predicate TwoEngines(l: Layout, known: map<nat, Identity>, current: set<nat>) {
    exists p, q :: p != q && IsEngine(l, known, current, p) && IsEngine(l, known, current, q)
  }

  lemma CountEngines(l: Layout, known: map<nat, Identity>, current: set<nat>, found: set<nat>)
    requires AreEngines(l, known, current, found)
    ensures found == {} <==> NoEngine(l, known, current)
    ensures |found| > 1 ==> TwoEngines(l, known, current)
    ensures forall pid: nat :: SoleEngine(l, known, current, pid) <==> found == {pid}
    ensures |found| == 1 ==> exists pid: nat :: SoleEngine(l, known, current, pid)
  {
    hide IsEngine;
    if found != {} {
      var p: nat := Pick(found);
      if found != {p} {
        var q: nat := Pick(found - {p});
        Smaller({p, q}, found);
      } else {
        assert SoleEngine(l, known, current, p);
      }
    }
  }

  lemma InCensus(l: Layout, known: map<nat, Identity>, current: set<nat>, engine: nat)
    requires SoleEngine(l, known, current, engine)
    ensures engine in current && current <= known.Keys
  {
    assert IsEngine(l, known, current, engine);
  }

  /** The signal reached this process, or that one had exited and nobody was signalled. */
  predicate Hit(w: World, before: set<nat>, delivered: set<nat>, b: nat) {
    delivered == before + {b} || (Dead(w, b) && delivered == before)
  }

  /** The pidfds still denote these processes. */
  ghost predicate StillDenote(fds: map<nat, PidFd>, chosen: map<nat, nat>) {
    forall m | m in chosen :: m in fds && fds[m].birth == chosen[m]
  }

  function Group(known: map<nat, Identity>, current: set<nat>, pid: nat): set<nat>
    requires current <= known.Keys && pid in current
  {
    set m | m in current && known[m].pgrp == known[pid].pgrp
  }

  function Births(fds: map<nat, PidFd>, members: set<nat>): map<nat, nat>
    requires members <= fds.Keys
  {
    map m | m in members :: fds[m].birth
  }

  class Stages {
    const rt: FiniteRuntime
    const layout: Layout
    var engine: Option<nat>
    var members: set<nat>
    /** The processes of the group when it was selected. */
    ghost var chosen: map<nat, nat>

    constructor (rt: FiniteRuntime, layout: Layout)
      requires rt.Valid()
      ensures Valid() && this.rt == rt && this.layout == layout && engine.None? && members == {}
    {
      this.rt, this.layout := rt, layout;
      engine, members, chosen := None, {}, map[];
    }

    ghost predicate Valid()
      reads this, rt, rt.machine
    {
      && rt.Valid()
      && members == chosen.Keys && StillDenote(rt.fds, chosen)
      && (engine.Some? ==> engine.value in members)
    }

    /** The local engines of a census. */
    method Engines(current: set<nat>) returns (found: set<nat>)
      requires current <= rt.known.Keys
      ensures AreEngines(layout, rt.known, current, found)
    {
      found := {};
      var rest := current;
      while rest != {}
        invariant rest <= current
        invariant forall pid :: pid in found <==> pid !in rest && IsEngine(layout, rt.known, current, pid)
        decreases rest
      {
        NonEmpty(rest);
        var pid :| pid in rest;
        if IsEngine(layout, rt.known, current, pid) {
          found := found + {pid};
        }
        rest := rest - {pid};
      }
    }

    /** A census and its engines; a second engine is an error. `through`: the census itself went through. */
    method Look() returns (ok: bool, current: set<nat>, found: set<nat>, ghost through: bool, ghost listed: seq<nat>, ghost pids: seq<nat>)
      requires Valid()
      modifies rt, rt.machine
      ensures Valid() && rt.machine.delivered == old(rt.machine.delivered) && rt.machine.Later()
      ensures through ==>
                && AreEngines(layout, rt.known, current, found)
                && UpToDate(rt.machine.world, old(rt.machine.sights), rt.machine.sights, current, rt.known, rt.fds)
      ensures pids != [] && old(rt.Smooth(listed, pids, true)) ==> through
      ensures ok == (through && |found| <= 1)
    {
      hide Accounted, MetOnly, Census, AllBut, AllDead, Persists, WellFormed, SeenLater, LivesIn, Bound, Vetted, UpToDate;
      ghost var census;
      found := {};
      ok, current, census, listed, pids := rt.ObserveOnce(true);
      through := ok;
      if ok {
        found := Engines(current);
        ok := |found| <= 1;
      }
    }

    /** The members are those of the census in the process group of this one. */
    ghost predicate IsGroup(current: set<nat>, pid: nat)
      reads this, rt
    {
      && pid in current && current <= rt.known.Keys
      && forall m :: m in members <==> m in current && rt.known[m].pgrp == rt.known[pid].pgrp
    }

    /** Makes a process of the census, and its process group, the selected ones. */
    method Select(current: set<nat>, pid: nat)
      requires Valid() && current <= rt.known.Keys && pid in current
      modifies this
      ensures Valid() && engine == Some(pid)
      ensures IsGroup(current, pid) && members <= rt.fds.Keys && chosen == Births(rt.fds, members)
    {
      engine := Some(pid);
      members := Group(rt.known, current, pid);
      chosen := Births(rt.fds, members);
    }

    /** `engine_running`: selects the engine and its process group as soon as a census shows it. */
    method RunningRound()
      returns (round: Round, current: set<nat>, ghost through: bool, ghost listed: seq<nat>, ghost pids: seq<nat>)
      requires Valid()
      modifies this, rt, rt.machine
      ensures Valid() && rt.machine.delivered == old(rt.machine.delivered)
      ensures pids != [] && old(rt.Smooth(listed, pids, true)) ==> through
      ensures round.Done? ==>
        && through && engine.Some? && SoleEngine(layout, rt.known, current, engine.value)
        && engine.value in current && current <= rt.known.Keys
        && IsGroup(current, engine.value) && members <= rt.fds.Keys && chosen == Births(rt.fds, members)
      ensures round.Done? <==> through && exists pid :: SoleEngine(layout, rt.known, current, pid)
      ensures round.Again? ==> through && NoEngine(layout, rt.known, current)
      ensures round.Failed? ==> !through || TwoEngines(layout, rt.known, current)
      ensures !round.Done? ==> engine == old(engine) && members == old(members) && chosen == old(chosen)
    {
      var ok, found;
      ok, current, found, through, listed, pids := Look();
      if through {
        CountEngines(layout, rt.known, current, found);
      }
      round := if ok then Again else Failed;
      if ok && found != {} {
        NonEmpty(found);
        var pid :| pid in found;
        assert IsEngine(layout, rt.known, current, pid);
        Select(current, pid);
        round := Done;
      }
    }

    /** `crash_engine`: the signal reaches the process that was selected, if that one still lives, and no other.
        `polled` is the kernel at the poll that must show it alive. */
    method CrashRound() returns (round: Round, current: set<nat>, ghost through: bool, ghost polled: World)
      requires Valid()
      modifies rt, rt.machine
      ensures Valid()
      ensures round.Done? ==>
        && through && engine.Some? && SoleEngine(layout, rt.known, current, engine.value)
        && Hit(rt.machine.world, old(rt.machine.delivered), rt.machine.delivered, chosen[engine.value])
        && Persists(old(rt.machine.world), polled) && Persists(polled, rt.machine.world)
        && chosen[engine.value] < |polled.births| && !Dead(polled, chosen[engine.value])
      ensures !round.Done? ==>
        && round.Failed? && rt.machine.delivered == old(rt.machine.delivered)
        && (!through || engine.None? || !SoleEngine(layout, rt.known, current, engine.value)
            || Dead(rt.machine.world, chosen[engine.value]))
    {
      hide IsEngine, UpToDate, WellFormed, SeenLater, Bound, Vetted;
      var ok, found;
      ghost var listed, pids;
      ok, current, found, through, listed, pids := Look();
      polled := rt.machine.world;
      if through {
        CountEngines(layout, rt.known, current, found);
      }
      round := Failed;
      if ok && engine.Some? && found == {engine.value} {
        InCensus(layout, rt.known, current, engine.value);
        ghost var w := rt.machine.world;
        var sent;
        sent, polled := Kill(engine.value);
        PersistsTwice(old(rt.machine.world), w, polled);
        round := if sent then Done else Failed;
      }
    }

    /** The engine must be running at a poll, and a signal must find a process. */
    method Kill(pid: nat) returns (sent: bool, ghost polled: World)
      requires Valid() && pid in rt.known
      modifies rt.machine
      ensures Valid() && Persists(old(rt.machine.world), polled) && Persists(polled, rt.machine.world)
      ensures sent <==> !Dead(polled, rt.fds[pid].birth) && rt.machine.world.births[rt.fds[pid].birth].stage < REAPED
      ensures rt.fds[pid].birth < |polled.births|
      ensures if sent then Hit(rt.machine.world, old(rt.machine.delivered), rt.machine.delivered, rt.fds[pid].birth)
              else rt.machine.delivered == old(rt.machine.delivered)
    {
      sent := false;
      var gone := rt.Poll(pid);
      polled := rt.machine.world;
      if !gone {
        sent := rt.Send(pid);
      }
    }

    /** `engine_stopped` and `idle_stopped`: over exactly when a census shows no engine and every process of the selected
        group has exited, and for the second not before its minimum of 50 seconds. `atPoll` and `atEnd` are the seconds
        since the stage began, read in this order. */
    method StoppedRound(idle: bool, atPoll: real, atEnd: real) returns (round: Round, current: set<nat>, ghost through: bool)
      requires Valid() && atPoll <= atEnd
      modifies rt, rt.machine
      ensures Valid() && rt.machine.delivered == old(rt.machine.delivered)
      ensures round.Done? ==>
        && through && NoEngine(layout, rt.known, current)
        && engine.Some? && (forall m | m in members :: Dead(rt.machine.world, chosen[m]))
        && (idle ==> atEnd >= 50.0)
      ensures round.Failed? ==>
        || !through || TwoEngines(layout, rt.known, current)
        || (NoEngine(layout, rt.known, current)
            && (engine.None? || (idle && atPoll < 50.0 && Dead(rt.machine.world, chosen[engine.value]))))
      ensures round.Again? ==>
        && through
        && ((exists pid :: SoleEngine(layout, rt.known, current, pid)) || exists m :: m in members && !Dead(rt.machine.world, chosen[m]))
      // An engine that had exited before the minimum of an idle stage fails it, however long its group takes.
      ensures (through && NoEngine(layout, rt.known, current) && engine.Some? && old(Dead(rt.machine.world, chosen[engine.value]))
               && idle && atPoll < 50.0) ==> round.Failed?
    {
      hide IsEngine, UpToDate, WellFormed, SeenLater, Bound, Vetted;
      var ok, found;
      ghost var listed, pids;
      ok, current, found, through, listed, pids := Look();
      if through {
        CountEngines(layout, rt.known, current, found);
      }
      round := if ok && found != {} then Again else Failed;
      if ok && found == {} && engine.Some? && engine.value in members && members <= rt.fds.Keys {
        var early := ExitedEarly(idle, atPoll);
        if !early {
          round := GroupRound(idle, atEnd);
        }
      }
    }

    /** The engine itself has exited before the minimum of an idle stage: that fails, however long its group takes. */
    method ExitedEarly(idle: bool, seconds: real) returns (early: bool)
      requires Valid() && engine.Some?
      modifies rt.machine
      ensures Valid() && rt.machine.delivered == old(rt.machine.delivered)
      ensures rt.machine.Later()
      ensures early <==> idle && seconds < 50.0 && Dead(rt.machine.world, chosen[engine.value])
    {
      early := false;
      if idle {
        var gone := rt.Poll(engine.value);
        early := gone && seconds < IDLE_MINIMUM;
      }
    }

    /** Whether the whole group has exited, and not too early. */
    method GroupRound(idle: bool, seconds: real) returns (round: Round)
      requires Valid() && engine.Some?
      modifies rt.machine
      ensures Valid() && rt.machine.delivered == old(rt.machine.delivered)
      ensures round == Again ==> exists m :: m in members && !Dead(rt.machine.world, chosen[m])
      ensures round != Again ==>
        && (forall m | m in members :: Dead(rt.machine.world, chosen[m]))
        && (round == Failed <==> idle && seconds < 50.0)
    {
      var gone := rt.OthersExited(rt.fds.Keys - members);
      assert rt.fds.Keys - (rt.fds.Keys - members) == members;
      round := if !gone then Again else if idle && seconds < IDLE_MINIMUM then Failed else Done;
    }
  }
}
