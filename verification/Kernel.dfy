/**
 The part of the Linux kernel that the finite-memory observer depends on: processes
 that fork, run programs, move between cgroups, exit, are reaped, and whose pids are
 then used again. A process is a birth, an index that is never used twice.
 */
module Kernel {
  import opened Wrappers

  /** A process lives, has exited, and is reaped, in this order. */
  const LIVE: nat := 0
  const EXITED: nat := 1
  const REAPED: nat := 2

  datatype Executable = Executable(path: string, device: nat, inode: nat)

  /** What the executable's link leads to: a file, none because that was unlinked, replaced or is out of sight, or
      an error of another kind. */
  datatype Image = Found(file: Executable) | Gone | Failing

  /** The four user ids of a process: all the same, or not. */
  datatype Owner = One(uid: nat) | Several

  /** `group` is the cgroup, `pgrp` the process group. `leaderDead`: the main thread is gone while other threads of
      the process may live. */
  datatype Process = Process(pid: nat, ticks: nat, owner: Owner, exe: Image, group: string, pgrp: nat,
                             parent: nat, leaderDead: bool, stage: nat)

  datatype World = World(births: seq<Process>)

  datatype Move = Fork(child: Process) | Change(birth: nat, after: Process)

  predicate Holds(w: World, pid: nat, b: nat) {
    b < |w.births| && w.births[b].pid == pid && w.births[b].stage < REAPED
  }

  predicate BothHold(w: World, pid: nat, a: nat, b: nat) {
    Holds(w, pid, a) && Holds(w, pid, b)
  }

  /** The process lives in the cgroup. */
  predicate LivesIn(w: World, b: nat, group: string) {
    b < |w.births| && w.births[b].stage == LIVE && w.births[b].group == group
  }

  predicate SamePid(w: World, a: nat, b: nat) {
    a < |w.births| && b < |w.births| && w.births[a].pid == w.births[b].pid
  }

  /** A pid names at most one unreaped process, and start ticks tell its users apart. */
  ghost predicate WellFormed(w: World) {
    && (forall p: nat, a: nat, b: nat | BothHold(w, p, a, b) :: a == b)
    && (forall a: nat, b: nat | SamePid(w, a, b) && w.births[a].ticks == w.births[b].ticks :: a == b)
  }

  /** A pid is free for a new process once its last user was reaped, and the clock moved on. */
  predicate Enabled(w: World, m: Move) {
    match m
    case Fork(c) =>
      && c.stage == LIVE && !c.leaderDead
      && forall b | 0 <= b < |w.births| && w.births[b].pid == c.pid ::
           w.births[b].stage >= REAPED && w.births[b].ticks != c.ticks
    case Change(b, after) =>
      && b < |w.births|
      && Ages(w.births[b], after) && after.stage <= REAPED
  }

  function Apply(w: World, m: Move): World {
    if !Enabled(w, m) then w
    else match m
      case Fork(c) => World(w.births + [c])
      case Change(b, after) => World(w.births[b := after])
  }

  function Play(w: World, moves: seq<Move>): World
    decreases |moves|
  {
    if moves == [] then w else Play(Apply(w, moves[0]), moves[1..])
  }

  /** The same process, later. */
  predicate Ages(p: Process, q: Process) {
    q.pid == p.pid && q.ticks == p.ticks && p.stage <= q.stage && (p.leaderDead ==> q.leaderDead)
  }

  /** What no kernel activity undoes. */
  ghost predicate Persists(w: World, v: World) {
    |w.births| <= |v.births| && forall b | 0 <= b < |w.births| :: Ages(w.births[b], v.births[b])
  }

  lemma PersistsTwice(u: World, v: World, w: World)
    requires Persists(u, v) && Persists(v, w)
    ensures Persists(u, w)
  {
  }

  lemma ApplyPersists(w: World, m: Move)
    requires WellFormed(w)
    ensures WellFormed(Apply(w, m)) && Persists(w, Apply(w, m))
  {
    var v := Apply(w, m);
    if Enabled(w, m) && m.Fork? {
      assert forall b | 0 <= b < |w.births| :: v.births[b] == w.births[b];
    }
    forall p: nat, a: nat, b: nat | BothHold(v, p, a, b)
      ensures a == b
    {
      if a < |w.births| && b < |w.births| { assert BothHold(w, p, a, b); }
    }
    forall a: nat, b: nat | SamePid(v, a, b) && v.births[a].ticks == v.births[b].ticks
      ensures a == b
    {
      if a < |w.births| && b < |w.births| { assert SamePid(w, a, b); }
    }
  }

  lemma {:induction false} PlayPersists(w: World, moves: seq<Move>)
    requires WellFormed(w)
    ensures WellFormed(Play(w, moves)) && Persists(w, Play(w, moves))
    decreases |moves|
  {
    if moves != [] {
      ApplyPersists(w, moves[0]);
      PlayPersists(Apply(w, moves[0]), moves[1..]);
    }
  }

  /**
   The argument behind binding a pid: the same pid and start ticks read before and after a
   pidfd was opened mean that the pidfd denotes that very process, whatever ran in between.
   */
  lemma Sandwich(before: World, middle: World, after: World, pid: nat, x: nat, h: nat, y: nat)
    requires WellFormed(after) && WellFormed(middle)
    requires Persists(before, middle) && Persists(middle, after)
    requires Holds(before, pid, x) && Holds(middle, pid, h) && Holds(after, pid, y)
    ensures before.births[x].ticks == after.births[y].ticks <==> (x == h == y)
  {
    if before.births[x].ticks == after.births[y].ticks {
      assert SamePid(after, x, y);
      assert BothHold(middle, pid, x, h);
    }
  }

  /** A process seen holding a pid keeps it for as long as it is not reaped. */
  lemma KeepsPid(w: World, v: World, pid: nat, b: nat, h: nat)
    requires WellFormed(v) && Persists(w, v)
    requires b < |w.births| && w.births[b].pid == pid && Holds(v, pid, h)
    ensures h == b || v.births[b].stage >= REAPED
  {
    if v.births[b].stage < REAPED {
      assert BothHold(v, pid, b, h);
    }
  }

  function Holder(w: World, pid: nat, from: nat): (b: Option<nat>)
    requires from <= |w.births|
    ensures b.Some? ==> from <= b.value && Holds(w, pid, b.value)
    ensures b.None? ==> forall c | from <= c < |w.births| :: !Holds(w, pid, c)
    decreases |w.births| - from
  {
    if from == |w.births| then None
    else if Holds(w, pid, from) then Some(from)
    else Holder(w, pid, from + 1)
  }

  /** A pidfd denotes one process for good; a program can only poll it and signal through it. */
  datatype PidFd = PidFd(birth: nat)

  datatype Stat = Stat(ticks: nat, parent: nat, pgrp: nat, zombie: bool)

  function StatOf(w: World, pid: nat): Option<Stat> {
    match Holder(w, pid, 0)
    case None => None
    case Some(h) =>
      var p := w.births[h];
      Some(Stat(p.ticks, p.parent, p.pgrp, p.leaderDead || p.stage != LIVE))
  }

  function OwnerOf(w: World, pid: nat): Option<Owner> {
    match Holder(w, pid, 0)
    case None => None
    case Some(h) => Some(w.births[h].owner)
  }

  /** A process with a dead main thread has no executable any more. */
  function ImageNow(p: Process): Image {
    if p.leaderDead || p.stage != LIVE then Gone else p.exe
  }

  function ImageOf(w: World, pid: nat): Image {
    match Holder(w, pid, 0)
    case None => Gone
    case Some(h) => ImageNow(w.births[h])
  }

  function GroupOf(w: World, pid: nat): Option<string> {
    match Holder(w, pid, 0)
    case None => None
    case Some(h) => Some(w.births[h].group)
  }

  /** What a file of a process showed: that it is in the watched cgroup, its user, its executable, or that it has none. */
  datatype Sight = InUnit(birth: nat) | HasUser(birth: nat, uid: nat) | HasImage(birth: nat, file: Executable) | NoImage(birth: nat)

  type Sights = multiset<Sight>

  predicate SeenLater(a: Sights, b: Sights) {
    a <= b
  }

  /** It was read once more in between. */
  predicate SeenAgain(before: Sights, after: Sights, sight: Sight) {
    before[sight] < after[sight]
  }

  /** The process showed no executable in between. */
  predicate Blanked(before: Sights, after: Sights, b: nat) {
    SeenAgain(before, after, NoImage(b))
  }

  lemma SeenTwice(a: Sights, b: Sights, c: Sights)
    requires SeenLater(a, b) && SeenLater(b, c)
    ensures SeenLater(a, c)
  {
  }

  /** The machine: before every observation it makes the next part of an arbitrary schedule of moves.
      `sights` collects what was read, by the process whose own file it was; `delivered` the live processes signalled. */
  class Machine {
    var world: World
    const schedule: nat -> seq<Move>
    var turn: nat
    const watched: string
    ghost var sights: Sights
    ghost var delivered: set<nat>

    ghost predicate Valid()
      reads this
    {
      WellFormed(world)
    }

    constructor (schedule: nat -> seq<Move>, watched: string)
      ensures Valid() && world == World([]) && delivered == {} && this.watched == watched && this.schedule == schedule
    {
      this.schedule, this.watched := schedule, watched;
      world, turn := World([]), 0;
      sights, delivered := multiset{}, {};
    }

    /** From one observation to the next only this much is certain. */
    twostate predicate Later()
      reads this
    {
      && Valid()
      && Persists(old(world), world)
      && SeenLater(old(sights), sights)
      && old(delivered) <= delivered
    }

    /** The kernel does nothing any more. */
    ghost predicate Still() {
      forall n :: schedule(n) == []
    }

    method Run()
      requires Valid()
      modifies this
      ensures Later() && delivered == old(delivered)
      ensures Still() ==> world == old(world)
      ensures world == Play(old(world), schedule(old(turn))) && sights == old(sights)
    {
      PlayPersists(world, schedule(turn));
      world := Play(world, schedule(turn));
      turn := turn + 1;
    }

    /** The kernel makes these moves now. */
    method Happen(moves: seq<Move>)
      requires Valid()
      modifies this
      ensures Later() && delivered == old(delivered)
      ensures world == Play(old(world), moves)
    {
      PlayPersists(world, moves);
      world := Play(world, moves);
    }

    /** `/proc/<pid>/stat` */
    method ReadStat(pid: nat) returns (r: Option<Stat>, ghost who: nat)
      requires Valid()
      modifies this
      ensures Later() && delivered == old(delivered) && (Still() ==> world == old(world))
      ensures r == StatOf(world, pid)
      ensures r.Some? ==> Holds(world, pid, who) && r.value.ticks == world.births[who].ticks
    {
      Run();
      who := Holder(world, pid, 0).GetOr(0);
      r := StatOf(world, pid);
    }

    /** The Uid line of `/proc/<pid>/status` */
    method ReadOwner(pid: nat) returns (r: Option<Owner>, ghost who: nat)
      requires Valid()
      modifies this
      ensures Later() && delivered == old(delivered) && (Still() ==> world == old(world))
      ensures r == OwnerOf(world, pid)
      ensures r.Some? ==> Holds(world, pid, who) && world.births[who].owner == r.value
      ensures r.Some? && r.value.One? ==> SeenAgain(old(sights), sights, HasUser(who, r.value.uid))
    {
      Run();
      who := Holder(world, pid, 0).GetOr(0);
      r := OwnerOf(world, pid);
      if r.Some? && r.value.One? {
        sights := sights + multiset{HasUser(who, r.value.uid)};
      }
    }

    /** `/proc/<pid>/exe` */
    method ReadImage(pid: nat) returns (r: Image, ghost who: nat)
      requires Valid()
      modifies this
      ensures Later() && delivered == old(delivered) && (Still() ==> world == old(world))
      ensures r == ImageOf(world, pid)
      ensures r.Found? ==> Holds(world, pid, who) && world.births[who].exe == r && SeenAgain(old(sights), sights, HasImage(who, r.file))
      ensures r.Gone? ==> forall b | Holds(world, pid, b) :: Blanked(old(sights), sights, b)
    {
      Run();
      who := Holder(world, pid, 0).GetOr(0);
      r := ImageOf(world, pid);
      if r.Found? {
        sights := sights + multiset{HasImage(who, r.file)};
      } else if r.Gone? {
        forall b | Holds(world, pid, b) ensures b == who {
          assert BothHold(world, pid, b, Holder(world, pid, 0).value);
        }
        sights := sights + multiset{NoImage(who)};
      }
    }

    /** `/proc/<pid>/cgroup` */
    method ReadGroup(pid: nat) returns (r: Option<string>, ghost who: nat)
      requires Valid()
      modifies this
      ensures Later() && delivered == old(delivered) && (Still() ==> world == old(world))
      ensures r == GroupOf(world, pid)
      ensures r.Some? ==>
                && Holds(world, pid, who) && world.births[who].group == r.value
                && (r.value == watched ==> InUnit(who) in sights)
    {
      Run();
      who := Holder(world, pid, 0).GetOr(0);
      r := GroupOf(world, pid);
      if r == Some(watched) {
        sights := sights + multiset{InUnit(who)};
      }
    }

    /** `cgroup.procs`: the pids of the live processes in a cgroup */
    method ReadMembers(group: string) returns (pids: seq<nat>, ghost who: seq<nat>)
      requires Valid()
      modifies this
      ensures Later() && delivered == old(delivered) && (Still() ==> world == old(world))
      ensures |pids| == |who|
      ensures forall i | 0 <= i < |who| :: Holds(world, pids[i], who[i])
      ensures forall i, j | 0 <= i < j < |pids| :: pids[i] != pids[j]
      ensures forall b: nat :: b in who <==> LivesIn(world, b, group)
    {
      Run();
      pids, who := [], [];
      var b := 0;
      while b < |world.births|
        invariant b <= |world.births| && |pids| == |who|
        invariant forall i | 0 <= i < |who| :: who[i] < b
        invariant forall i, j | 0 <= i < j < |pids| :: pids[i] != pids[j]
        invariant forall i | 0 <= i < |who| :: Holds(world, pids[i], who[i])
        invariant forall c: nat :: c in who <==> c < b && LivesIn(world, c, group)
      {
        if LivesIn(world, b, group) {
          forall i | 0 <= i < |pids|
            ensures pids[i] != world.births[b].pid
          {
            if pids[i] == world.births[b].pid { assert BothHold(world, pids[i], who[i], b); }
          }
          pids, who := pids + [world.births[b].pid], who + [b];
        }
        b := b + 1;
      }
    }

    /** `pidfd_open` */
    method Open(pid: nat) returns (r: Option<PidFd>)
      requires Valid()
      modifies this
      ensures Later() && delivered == old(delivered) && (Still() ==> world == old(world))
      ensures r.Some? ==> Holds(world, pid, r.value.birth)
      ensures r.None? ==> forall b :: !Holds(world, pid, b)
    {
      Run();
      var h := Holder(world, pid, 0);
      return if h.None? then None else Some(PidFd(h.value));
    }

    /** Polling a pidfd: readable once the whole process exited. */
    method HasExited(fd: PidFd) returns (r: bool)
      requires Valid() && fd.birth < |world.births|
      modifies this
      ensures Later() && delivered == old(delivered) && (Still() ==> world == old(world))
      ensures r == (world.births[fd.birth].stage != LIVE)
    {
      Run();
      return world.births[fd.birth].stage != LIVE;
    }

    /** `pidfd_send_signal`; false stands for ProcessLookupError. A process that has exited and was
        not yet reaped takes a signal, which does nothing any more. */
    method Signal(fd: PidFd) returns (sent: bool)
      requires Valid() && fd.birth < |world.births|
      modifies this
      ensures Later()
      ensures sent == (world.births[fd.birth].stage < REAPED)
      ensures delivered == if world.births[fd.birth].stage == LIVE then old(delivered) + {fd.birth} else old(delivered)
    {
      Run();
      sent := world.births[fd.birth].stage < REAPED;
      if world.births[fd.birth].stage == LIVE {
        delivered := delivered + {fd.birth};
      }
    }
  }
}
