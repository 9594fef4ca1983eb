/**
 The finite-memory observer: it binds the pids of a service's cgroup to pidfds while
 the kernel forks, exits, reaps and reuses pids between any two of its observations.
 */
module FiniteObserver {
  import opened Wrappers
  import opened Kernel
  import opened Sets

  const MAX_OBSERVED := 512

  datatype Identity = Identity(pid: nat, uid: nat, ticks: nat, parent: nat, pgrp: nat, zombie: bool, exe: Executable)

  predicate SameBirth(a: Identity, b: Identity) {
    a.pid == b.pid && a.uid == b.uid && a.ticks == b.ticks
  }

  predicate SameProcess(a: Identity, b: Identity) {
    SameBirth(a, b) && a.exe == b.exe
  }

  /** Whether an identity could be read; `Missing` is FileNotFoundError, `Broken` any other exception. */
  datatype Reading = Got(identity: Identity) | Missing | Broken

  /** Puts the three files together; without an executable only a process that was met before has an identity. */
  function Assemble(pid: nat, stat: Stat, uid: nat, exe: Image, retained: Option<Identity>): Reading {
    var id := Identity(pid, uid, stat.ticks, stat.parent, stat.pgrp, stat.zombie,
                       if exe.Found? then exe.file else Executable("", 0, 0));
    match exe
    case Found(_) => Got(id)
    case Gone =>
      if id.zombie && retained.Some? && SameBirth(id, retained.value) then Got(id.(exe := retained.value.exe)) else Missing
    case Failing => Broken
  }

  /** What a reading comes to when nothing moves. */
  function ReadingNow(w: World, pid: nat, retained: Option<Identity>): Reading {
    match (StatOf(w, pid), OwnerOf(w, pid))
    case (Some(stat), Some(One(uid))) => Assemble(pid, stat, uid, ImageOf(w, pid), retained)
    case (Some(stat), Some(Several)) => Broken
    case _ => Missing
  }

  /** The identity of a live process whose files are all there. */
  function IdentityNow(w: World, pid: nat): Option<Identity> {
    match ReadingNow(w, pid, None)
    case Got(id) => Some(id)
    case _ => None
  }

  /** The process that holds the pid is the live one of the identity. */
  lemma NowIsLive(w: World, pid: nat, b: nat)
    requires WellFormed(w) && Holds(w, pid, b) && IdentityNow(w, pid).Some?
    ensures w.births[b].stage == LIVE
  {
    assert BothHold(w, pid, b, Holder(w, pid, 0).value);
  }

  /** What the files of a process that holds its pid show. */
  lemma ReadHolder(w: World, pid: nat, b: nat)
    requires WellFormed(w) && Holds(w, pid, b)
    ensures var p := w.births[b];
            && StatOf(w, pid) == Some(Stat(p.ticks, p.parent, p.pgrp, p.leaderDead || p.stage != LIVE))
            && OwnerOf(w, pid) == Some(p.owner) && ImageOf(w, pid) == ImageNow(p) && GroupOf(w, pid) == Some(p.group)
  {
    assert BothHold(w, pid, b, Holder(w, pid, 0).value);
  }

  /** Of a readable process its user, ticks and executable are read; without an executable it has an identity only when
      its main thread is dead and its birth is known, and then the recorded executable. */
  lemma ReadStanding(w: World, pid: nat, b: nat, retained: Option<Identity>)
    requires WellFormed(w) && Holds(w, pid, b) && w.births[b].stage == LIVE && w.births[b].owner.One?
    ensures var p, r := w.births[b], ReadingNow(w, pid, retained);
            && (r.Got? ==> r.identity.pid == pid && r.identity.uid == p.owner.uid && r.identity.ticks == p.ticks)
            && (ImageNow(p).Found? ==> r.Got? && r.identity.exe == p.exe.file && IdentityNow(w, pid) == Some(r.identity))
            && (ImageNow(p).Gone? ==>
                  if p.leaderDead && retained.Some? && retained.value.pid == pid && retained.value.uid == p.owner.uid
                     && retained.value.ticks == p.ticks
                  then r.Got? && r.identity.exe == retained.value.exe
                  else r.Missing?)
  {
    ReadHolder(w, pid, b);
  }

  /** What one pid of the census came to; `Refused` is an exception of the observer. */
  datatype Verdict = Skipped | Counted | Refused

  /** The process has exited. */
  predicate Dead(w: World, b: nat) {
    b < |w.births| && w.births[b].stage != LIVE
  }

  predicate OfPid(w: World, b: nat, pid: nat) {
    b < |w.births| && w.births[b].pid == pid
  }

  ghost predicate NobodyLive(w: World, pid: nat) {
    forall b | Holds(w, pid, b) :: Dead(w, b)
  }

  lemma OnlyHolder(w: World, pid: nat, b: nat)
    requires WellFormed(w) && Holds(w, pid, b)
    ensures NobodyLive(w, pid) <==> Dead(w, b)
  {
    forall c | Holds(w, pid, c) ensures c == b {
      assert BothHold(w, pid, c, b);
    }
  }

  /** Who held the pid is the listed process, or that one is gone. */
  lemma SameHolder(first: World, w: World, pid: nat, listed: nat, who: nat)
    requires WellFormed(first) && Persists(first, w) && Holds(first, pid, who) && OfPid(first, listed, pid)
    ensures who == listed || Dead(w, listed)
  {
    if first.births[listed].stage < REAPED {
      assert BothHold(first, pid, listed, who);
    }
  }

  lemma OneBirth(w: World, a: nat, b: nat)
    requires WellFormed(w) && SamePid(w, a, b) && w.births[a].ticks == w.births[b].ticks
    ensures a == b
  {
  }

  /** Since then the process has exited, or its user was read again, and its executable or that it has none. */
  predicate Reread(w: World, before: Sights, s: Sights, b: nat, uid: nat, exe: Executable) {
    || Dead(w, b)
    || (SeenAgain(before, s, HasUser(b, uid)) && (SeenAgain(before, s, HasImage(b, exe)) || Blanked(before, s, b)))
  }

  lemma RereadLater(w: World, v: World, earlier: Sights, before: Sights, s: Sights, more: Sights, b: nat, uid: nat, exe: Executable)
    requires Reread(w, before, s, b, uid, exe) && Persists(w, v) && SeenLater(earlier, before) && SeenLater(s, more)
    ensures Reread(v, earlier, more, b, uid, exe)
  {
  }

  lemma ReadingLater(w: World, v: World, before: Sights, s: Sights, more: Sights, b: nat, id: Identity, retained: Option<Identity>)
    requires ReadOff(w, s, b, id, retained) && Reread(w, before, s, b, id.uid, id.exe)
    requires Persists(w, v) && SeenLater(before, s) && SeenLater(s, more)
    ensures SeenLater(before, more)
    ensures ReadOff(v, more, b, id, retained) && Reread(v, before, more, b, id.uid, id.exe)
  {
  }

  /** The process has no identity for now: its executable is gone. */
  predicate Unreadable(p: Process) {
    p.owner.One? && ImageNow(p).Gone?
  }

  /** It has one, of this user. */
  predicate ReadableAs(p: Process, uid: nat) {
    p.owner == One(uid) && ImageNow(p).Found?
  }

  /** The process has exited, or showed no executable since then. */
  predicate Unread(w: World, before: Sights, s: Sights, b: nat) {
    Dead(w, b) || Blanked(before, s, b)
  }

  lemma UnreadLater(w: World, v: World, before: Sights, s: Sights, more: Sights, b: nat)
    requires Unread(w, before, s, b) && Persists(w, v) && SeenLater(s, more)
    ensures Unread(v, before, more, b)
  {
  }

  /** A live process holds a pid under which an earlier process was bound. */
  predicate Behind(w: World, pid: nat, b: nat, had: map<nat, PidFd>) {
    && b < |w.births| && w.births[b].pid == pid && w.births[b].stage == LIVE
    && pid in had && Denotes(w, pid, had[pid]) && had[pid].birth != b
  }

  lemma EarlierIsReaped(w: World, pid: nat, b: nat, had: map<nat, PidFd>)
    requires WellFormed(w) && Behind(w, pid, b, had)
    ensures w.births[had[pid].birth].stage >= REAPED
    ensures w.births[had[pid].birth].ticks != w.births[b].ticks
  {
    var a := had[pid].birth;
    assert SamePid(w, a, b);
    if w.births[a].stage < REAPED {
      assert BothHold(w, pid, a, b);
    }
  }

  /** What is read of such a process: nothing while its executable is gone, and never the birth of the earlier one. */
  lemma ReadBehind(w: World, pid: nat, b: nat, had: map<nat, PidFd>, retained: Option<Identity>)
    requires WellFormed(w) && Behind(w, pid, b, had)
    requires retained.Some? ==> retained.value.ticks == w.births[had[pid].birth].ticks
    ensures ReadingNow(w, pid, retained).Missing? <==> Unreadable(w.births[b])
    ensures ReadingNow(w, pid, retained).Got? <==> w.births[b].owner.One? && ImageNow(w.births[b]).Found?
    ensures ReadingNow(w, pid, retained).Got? ==>
              && ReadingNow(w, pid, retained).identity.uid == w.births[b].owner.uid
              && (retained.Some? ==> !SameBirth(retained.value, ReadingNow(w, pid, retained).identity))
  {
    EarlierIsReaped(w, pid, b, had);
    assert Holds(w, pid, b);
    assert BothHold(w, pid, b, Holder(w, pid, 0).value);
  }

  /** A pidfd that denotes a process of this pid. */
  predicate Denotes(w: World, pid: nat, fd: PidFd) {
    fd.birth < |w.births| && w.births[fd.birth].pid == pid
  }

  /** Each pidfd denotes a process of its pid, and each known identity is that of the process of its pidfd. */
  ghost predicate Bound(w: World, known: map<nat, Identity>, fds: map<nat, PidFd>) {
    && (forall pid | pid in fds :: Denotes(w, pid, fds[pid]))
    && (forall pid | pid in known ::
          pid in fds && known[pid].pid == pid && known[pid].ticks == w.births[fds[pid].birth].ticks)
  }

  /** The user and the executable of the identity were read off this very process. */
  predicate Shown(s: Sights, b: nat, id: Identity) {
    HasUser(b, id.uid) in s && HasImage(b, id.exe) in s
  }

  /** The process has exited, or it was seen with this user, with this executable and in the unit. */
  predicate Proven(w: World, s: Sights, b: nat, id: Identity) {
    Dead(w, b) || (InUnit(b) in s && Shown(s, b, id))
  }

  /** A known process that is still live was itself seen with what is recorded of it. */
  ghost predicate Vetted(w: World, known: map<nat, Identity>, fds: map<nat, PidFd>, sights: Sights) {
    forall pid | pid in known :: pid in fds && Proven(w, sights, fds[pid].birth, known[pid])
  }

  /** An identity read of a process shows its user, and its executable unless that was taken over from before. */
  predicate ReadOff(w: World, s: Sights, b: nat, id: Identity, retained: Option<Identity>) {
    || Dead(w, b)
    || Shown(s, b, id)
    || (HasUser(b, id.uid) in s && retained.Some? && SameBirth(id, retained.value) && id.exe == retained.value.exe)
  }

  lemma BoundLater(w: World, v: World, known: map<nat, Identity>, fds: map<nat, PidFd>)
    requires Bound(w, known, fds) && Persists(w, v)
    ensures Bound(v, known, fds)
  {
    forall pid | pid in fds
      ensures Denotes(v, pid, fds[pid])
    {
      assert Denotes(w, pid, fds[pid]);
    }
  }

  lemma VettedLater(w: World, v: World, known: map<nat, Identity>, fds: map<nat, PidFd>, seen: Sights, more: Sights)
    requires Vetted(w, known, fds, seen) && Persists(w, v) && SeenLater(seen, more)
    ensures Vetted(v, known, fds, more)
  {
  }

  /** One more pidfd leaves the known identities bound. */
  lemma BindMore(w: World, known: map<nat, Identity>, fds: map<nat, PidFd>, sights: Sights, pid: nat, fd: PidFd)
    requires Bound(w, known, fds) && Vetted(w, known, fds, sights) && pid !in fds && Denotes(w, pid, fd)
    ensures Bound(w, known, fds[pid := fd]) && Vetted(w, known, fds[pid := fd], sights)
    ensures AtMost(fds[pid := fd].Keys, fds.Keys, pid)
  {
    assert forall p | p in fds :: fds[pid := fd][p] == fds[p];
  }

  /** Nothing that was bound was dropped or rebound. */
  ghost predicate Extends(before: map<nat, PidFd>, after: map<nat, PidFd>) {
    forall pid | pid in before :: pid in after && after[pid] == before[pid]
  }

  lemma ExtendsByOne(fds: map<nat, PidFd>, pid: nat, fd: PidFd)
    requires pid !in fds
    ensures Extends(fds, fds[pid := fd])
  {
  }

  lemma ExtendsItself(fds: map<nat, PidFd>)
    ensures Extends(fds, fds)
  {
  }

  /** No identity but this one was replaced. */
  ghost predicate SameBut(before: map<nat, Identity>, after: map<nat, Identity>, pid: nat) {
    forall p | p in before && p != pid :: p in after && after[p] == before[p]
  }

  lemma SameButOne(before: map<nat, Identity>, after: map<nat, Identity>, pid: nat, id: Identity)
    ensures after == before || after == before[pid := id] ==> SameBut(before, after, pid)
  {
  }

  /** Each counted process was read again since then as what is recorded of it, or has exited. */
  ghost predicate UpToDate(w: World, before: Sights, s: Sights, current: set<nat>, known: map<nat, Identity>, fds: map<nat, PidFd>) {
    forall pid | pid in current ::
      pid in known && pid in fds && Reread(w, before, s, fds[pid].birth, known[pid].uid, known[pid].exe)
  }

  lemma UpToDateLater(w: World, v: World, earlier: Sights, before: Sights, s: Sights, more: Sights,
                      current: set<nat>, known: map<nat, Identity>, fds: map<nat, PidFd>)
    requires UpToDate(w, before, s, current, known, fds)
    requires Persists(w, v) && SeenLater(earlier, before) && SeenLater(s, more)
    ensures UpToDate(v, earlier, more, current, known, fds)
  {
    forall pid | pid in current
      ensures Reread(v, earlier, more, fds[pid].birth, known[pid].uid, known[pid].exe)
    {
      RereadLater(w, v, earlier, before, s, more, fds[pid].birth, known[pid].uid, known[pid].exe);
    }
  }

  lemma UpToDateNext(w: World, v: World, before: Sights, s: Sights, more: Sights, current: set<nat>, pid: nat, verdict: Verdict,
                     known: map<nat, Identity>, fds: map<nat, PidFd>, known': map<nat, Identity>, fds': map<nat, PidFd>)
    requires UpToDate(w, before, s, current, known, fds) && pid !in current
    requires Persists(w, v) && SeenLater(before, s) && SeenLater(s, more)
    requires SameBut(known, known', pid) && forall p | p in fds :: p in fds' && fds'[p] == fds[p]
    requires verdict == Counted ==>
               pid in known' && pid in fds' && Reread(v, s, more, fds'[pid].birth, known'[pid].uid, known'[pid].exe)
    ensures UpToDate(v, before, more, After(current, pid, verdict), known', fds')
  {
    UpToDateLater(w, v, before, before, s, more, current, known, fds);
    if verdict == Counted {
      RereadLater(v, v, before, s, more, more, fds'[pid].birth, known'[pid].uid, known'[pid].exe);
    }
  }

  /** Nothing but this pid was added. */
  predicate AtMost(after: set<nat>, before: set<nat>, pid: nat) {
    after <= before + {pid}
  }

  /** The first pids of a census. */
  function Seen(pids: seq<nat>, i: nat): set<nat>
    requires i <= |pids|
  {
    if i == 0 then {} else Seen(pids, i - 1) + {pids[i - 1]}
  }

  lemma {:induction false} SeenIs(pids: seq<nat>, i: nat, p: nat)
    requires i <= |pids|
    ensures p in Seen(pids, i) <==> exists j :: 0 <= j < i && pids[j] == p
  {
    if i > 0 {
      SeenIs(pids, i - 1, p);
    }
  }

  /** The pids whose pidfds denote processes that were reaped. */
  function Stale(w: World, fds: map<nat, PidFd>): set<nat> {
    set pid | pid in fds && !Holds(w, pid, fds[pid].birth)
  }

  /** Behind a census that counted all but the stale pids, whatever else is bound was bound before, and is dead if it was. */
  lemma NoOthers(w: World, had: map<nat, PidFd>, fds: map<nat, PidFd>, pids: seq<nat>, current: set<nat>)
    requires MetOnly(fds.Keys, had.Keys, pids, |pids|) && AllBut(current, pids, |pids|, Stale(w, had))
    requires forall p | p in had :: Denotes(w, p, had[p]) && p in fds && fds[p] == had[p]
    requires AllDead(w, had, had.Keys - Seen(pids, |pids|))
    ensures AllDead(w, fds, fds.Keys - current)
  {
    forall p | p in fds.Keys - current
      ensures Dead(w, fds[p].birth)
    {
      if p !in Seen(pids, |pids|) {
        assert p in had.Keys - Seen(pids, |pids|);
      }
    }
  }

  /** The pids counted so far. */
  function After(current: set<nat>, pid: nat, v: Verdict): set<nat> {
    if v == Counted then current + {pid} else current
  }

  /** Counted so far are exactly the pids outside of `skipped`. */
  predicate AllBut(current: set<nat>, pids: seq<nat>, i: nat, skipped: set<nat>) {
    i <= |pids| && current == Seen(pids, i) - skipped
  }

  lemma AllButNext(current: set<nat>, pids: seq<nat>, i: nat, skipped: set<nat>, v: Verdict)
    requires AllBut(current, pids, i, skipped) && i < |pids| && v == if pids[i] in skipped then Skipped else Counted
    ensures AllBut(After(current, pids[i], v), pids, i + 1, skipped)
  {
    assert Seen(pids, i + 1) == Seen(pids, i) + {pids[i]};
  }

  lemma {:induction false} SeenCount(pids: seq<nat>, i: nat)
    requires i <= |pids| && forall j: nat, k: nat {:trigger Apart(pids, j, k)} | j < k < |pids| :: Apart(pids, j, k)
    ensures |Seen(pids, i)| == i
  {
    if i > 0 {
      SeenCount(pids, i - 1);
      SeenIs(pids, i - 1, pids[i - 1]);
      forall j: nat | j < i - 1 ensures pids[j] != pids[i - 1] {
        assert Apart(pids, j, i - 1);
      }
    }
  }

  /** A census of distinct pids within the bound is not too long. */
  lemma CensusWithinBound(w: World, listed: seq<nat>, pids: seq<nat>, had: set<nat>)
    requires Census(w, listed, pids)
    ensures |pids| <= |had + Seen(pids, |pids|)|
  {
    SeenCount(pids, |pids|);
    Smaller(Seen(pids, |pids|), had + Seen(pids, |pids|));
  }

  /** A census within the bound leaves room for a pid that it has not bound yet. */
  lemma WithinBound(bound: set<nat>, had: set<nat>, pids: seq<nat>, i: nat)
    requires MetOnly(bound, had, pids, i) && i < |pids|
    ensures pids[i] !in bound ==> |bound| < |had + Seen(pids, |pids|)|
  {
    var all := had + Seen(pids, |pids|);
    forall p | p in bound + {pids[i]} ensures p in all {
      SeenIs(pids, i, p);
      SeenIs(pids, |pids|, p);
    }
    if pids[i] !in bound {
      Smaller(bound + {pids[i]}, all);
    }
  }

  /** Only pids that were gone through joined. */
  ghost predicate MetOnly(after: set<nat>, before: set<nat>, pids: seq<nat>, i: nat) {
    i <= |pids| && after <= before + Seen(pids, i)
  }

  lemma MetNext(after: set<nat>, middle: set<nat>, before: set<nat>, pids: seq<nat>, i: nat)
    requires MetOnly(middle, before, pids, i) && i < |pids| && AtMost(after, middle, pids[i])
    ensures MetOnly(after, before, pids, i + 1) && |after| <= |middle| + 1
  {
    Smaller(after, middle + {pids[i]});
    assert |middle + {pids[i]}| <= |middle| + 1;
  }

  lemma KnowMore(w: World, known: map<nat, Identity>, fds: map<nat, PidFd>, sights: Sights, pid: nat, id: Identity)
    requires Bound(w, known, fds) && Vetted(w, known, fds, sights) && pid in fds
    requires id.pid == pid && id.ticks == w.births[fds[pid].birth].ticks
    requires Proven(w, sights, fds[pid].birth, id)
    ensures Bound(w, known[pid := id], fds) && Vetted(w, known[pid := id], fds, sights)
    ensures AtMost(known[pid := id].Keys, known.Keys, pid) && known.Keys <= known[pid := id].Keys
  {
  }

  /** What became of a census entry, from its two halves. */
  lemma AccountedSoon(w: World, v: World, s: Sights, more: Sights, b: nat, pid: nat, counted: bool, fds: map<nat, PidFd>, past: Past)
    requires Persists(w, v) && SeenLater(s, more)
    requires Dead(w, b) || (!counted && PassedOver(b, pid, past.fds, past.knew, past.sights, s))
             || (pid in fds && fds[pid].birth == b && (counted || Dead(v, b)))
    ensures AccountedFor(v, more, b, pid, counted, fds, past)
  {
  }

  lemma PersistsItself(w: World, s: Sights)
    ensures Persists(w, w) && SeenLater(s, s)
  {
  }

  lemma AtMostItself(pids: set<nat>, pid: nat)
    ensures AtMost(pids, pids, pid)
  {
  }

  /** What one entry came to, from what was found of it and what the tests of the unit made of that. */
  lemma Concluded(u: World, w: World, v: World, start: Sights, s: Sights, more: Sights, listed: nat, pid: nat, found: Verdict,
                  end: Verdict, id: Identity, knew: map<nat, Identity>, known: map<nat, Identity>, had: map<nat, PidFd>, fds: map<nat, PidFd>)
    requires Persists(u, w) && Persists(w, v) && SeenLater(start, s) && SeenLater(s, more)
    requires found == Skipped ==> Dead(w, listed) || PassedOver(listed, pid, had, if pid in knew then {pid} else {}, start, s)
    requires found == Counted ==>
               pid in fds && (fds[pid].birth == listed || Dead(w, listed)) && Reread(w, start, s, fds[pid].birth, id.uid, id.exe)
    requires if found == Counted then end == Skipped ==> Dead(v, fds[pid].birth) else end == found
    requires end == Counted ==> pid in known && known[pid].exe == id.exe && known[pid].uid == id.uid
    requires known == knew || known == knew[pid := id]
    ensures Persists(u, v) && SeenLater(start, more) && SameBut(knew, known, pid)
    ensures end != Refused ==> AccountedFor(v, more, listed, pid, end == Counted, fds, Past(had, knew.Keys, start))
    ensures end == Counted ==> Reread(v, start, more, fds[pid].birth, known[pid].uid, known[pid].exe)
  {
    PersistsTwice(u, w, v);
    SeenTwice(start, s, more);
    SameButOne(knew, known, pid, id);
    if end == Counted {
      RereadLater(w, v, start, start, s, more, fds[pid].birth, id.uid, id.exe);
    }
    if end != Refused {
      AccountedSoon(w, v, s, more, listed, pid, end == Counted, fds, Past(had, knew.Keys, start));
    }
  }

  ghost predicate AllDead(w: World, fds: map<nat, PidFd>, pids: set<nat>) {
    forall pid | pid in pids :: pid in fds && Dead(w, fds[pid].birth)
  }

  lemma AllDeadNext(w: World, v: World, fds: map<nat, PidFd>, others: set<nat>, rest: set<nat>, pid: nat)
    requires AllDead(w, fds, others - rest) && Persists(w, v) && pid in fds && Dead(v, fds[pid].birth)
    ensures AllDead(v, fds, others - (rest - {pid}))
  {
    forall p | p in others - (rest - {pid}) && p != pid ensures p in others - rest {
    }
  }

  class FiniteRuntime {
    const machine: Machine
    const uid: nat
    const helper: nat
    const runtime: nat
    const installed: Executable -> bool
    const interpreter: Executable
    var known: map<nat, Identity>
    var fds: map<nat, PidFd>

    constructor (machine: Machine, uid: nat, helper: nat, runtime: nat,
                 installed: Executable -> bool, interpreter: Executable)
      requires machine.Valid() && machine.delivered == {}
      ensures this.machine == machine && this.uid == uid && this.helper == helper && this.runtime == runtime
      ensures this.installed == installed && this.interpreter == interpreter
      ensures Valid() && fds == map[] && known == map[]
    {
      this.machine, this.uid, this.helper, this.runtime := machine, uid, helper, runtime;
      this.installed, this.interpreter := installed, interpreter;
      known, fds := map[], map[];
    }

    ghost predicate Valid()
      reads this, machine
    {
      && machine.Valid() && |fds| <= 512
      && Bound(machine.world, known, fds)
      && Vetted(machine.world, known, fds, machine.sights) && (forall b | b in machine.delivered :: InUnit(b) in machine.sights)
      && AllAllowed(known)
    }

    /** A live process of this user in the unit. */
    predicate IsMember(w: World, pid: nat, b: nat) {
      Holds(w, pid, b) && w.births[b].stage == LIVE && w.births[b].owner == One(uid) && w.births[b].group == machine.watched
    }

    /** Its executable is there and an allowed one. */
    predicate RunsAllowed(p: Process, pid: nat) {
      !p.leaderDead && p.exe.Found? && (installed(p.exe.file) || (pid == helper && p.exe.file == interpreter))
    }

    /** A new member that runs an allowed executable, or a known one, bound itself, that does or has lost its main thread. */
    predicate Countable(w: World, pid: nat, b: nat, known: map<nat, Identity>, fds: map<nat, PidFd>) {
      && IsMember(w, pid, b)
      && if pid in known then pid in fds && fds[pid].birth == b && (RunsAllowed(w.births[b], pid) || w.births[b].leaderDead)
         else pid !in fds && RunsAllowed(w.births[b], pid)
    }

    /** A live process, not behind an older binding, whose executable is gone while its main thread lives or its birth is
        not known. */
    predicate Faceless(w: World, pid: nat, b: nat, knows: bool, fds: map<nat, PidFd>) {
      && Holds(w, pid, b) && w.births[b].stage == LIVE && Unreadable(w.births[b])
      && !(w.births[b].leaderDead && knows) && (pid in fds ==> fds[pid].birth == b)
    }

    /** A live process behind an older binding whose identity cannot be read, or whose pid was bound but never became known. */
    predicate Overlooked(w: World, pid: nat, b: nat, known: map<nat, Identity>, fds: map<nat, PidFd>) {
      && Behind(w, pid, b, fds)
      && (Unreadable(w.births[b]) || (pid !in known && ReadableAs(w.births[b], uid)))
    }

    /** The verdict on a kernel that stands still: a countable member is counted within the bound, a faceless process is
        refused, and a live one behind an older binding is never counted, and passed over exactly when overlooked. */
    predicate Foreseen(w: World, pid: nat, b: nat, known: map<nat, Identity>, fds: map<nat, PidFd>, v: Verdict) {
      && (Countable(w, pid, b, known, fds) && (pid in known || |fds| < 512) ==> v == Counted)
      && (Faceless(w, pid, b, pid in known, fds) ==> v == Refused)
      && (Behind(w, pid, b, fds) ==> v != Counted && (v == Skipped <==> Overlooked(w, pid, b, known, fds)))
    }

    predicate Simple(w: World, pid: nat, b: nat, known: map<nat, Identity>, fds: map<nat, PidFd>) {
      Countable(w, pid, b, known, fds) || Overlooked(w, pid, b, known, fds)
    }

    /** What the loop has done since the census leaves a pid that it has not met as it was. */
    lemma StaysSimple(w: World, pid: nat, b: nat, knew: map<nat, Identity>, had: map<nat, PidFd>,
                      known: map<nat, Identity>, fds: map<nat, PidFd>)
      requires WellFormed(w) && Simple(w, pid, b, knew, had)
      requires (pid in known <==> pid in knew) && (pid in fds ==> pid in had)
      requires pid in had ==> pid in fds && fds[pid] == had[pid]
      ensures if pid in Stale(w, had) then Overlooked(w, pid, b, known, fds) else Countable(w, pid, b, known, fds)
    {
      if Overlooked(w, pid, b, knew, had) {
        EarlierIsReaped(w, pid, b, had);
      }
    }

    /** A census within the bound of members that are countable and of processes that are overlooked. */
    ghost predicate Easy(w: World, listed: seq<nat>, pids: seq<nat>, known: map<nat, Identity>, fds: map<nat, PidFd>) {
      && machine.Still() && |fds.Keys + Seen(pids, |pids|)| <= 512 && |listed| == |pids|
      && forall i {:trigger Simple(w, pids[i], listed[i], known, fds)} | 0 <= i < |pids| :: Simple(w, pids[i], listed[i], known, fds)
    }

    /** Such a census on a kernel that stands still, with nothing else alive that was bound before. */
    ghost predicate Smooth(listed: seq<nat>, pids: seq<nat>, requireRuntime: bool)
      reads this, machine
    {
      && Easy(machine.world, listed, pids, known, fds) && AllDead(machine.world, fds, fds.Keys - Seen(pids, |pids|))
      && (requireRuntime ==> runtime in pids && runtime !in Stale(machine.world, fds))
    }

    predicate AllowedExecutable(pid: nat, exe: Executable) {
      installed(exe) || (pid == helper && exe == interpreter)
    }

    /** Every known process had this user and, when it was admitted, an installed executable; the helper has the interpreter. */
    ghost predicate AllAllowed(known: map<nat, Identity>) {
      forall pid | pid in known ::
        known[pid].uid == uid && (installed(known[pid].exe) || (pid == helper && known[pid].exe == interpreter))
    }

    ghost function Before(): Past
      reads this, machine
    {
      Past(fds, known.Keys, machine.sights)
    }

    /** Time passed, and nothing retained was dropped or rebound. */
    twostate predicate Kept()
      reads this, machine
    {
      && machine.Later()
      && old(known).Keys <= known.Keys
      && Extends(old(fds), fds)
    }

    twostate lemma TimeKeeps()
      requires old(Valid()) && machine.Later() && unchanged(this)
      requires machine.delivered == old(machine.delivered)
      ensures Valid()
    {
      BoundLater(old(machine.world), machine.world, known, fds);
      VettedLater(old(machine.world), machine.world, known, fds, old(machine.sights), machine.sights);
    }

    /** Reads status and exe after stat was read of `who`. */
    method ReadRest(pid: nat, stat: Stat, retained: Option<Identity>, ghost first: World, ghost who: nat, ghost listed: nat)
      returns (r: Reading)
      requires machine.Valid() && OfPid(machine.world, listed, pid)
      requires WellFormed(first) && Persists(first, machine.world) && Holds(first, pid, who)
      modifies machine
      ensures machine.Later() && machine.delivered == old(machine.delivered)
      ensures r.Got? ==> r.identity.pid == pid && r.identity.ticks == stat.ticks
      ensures r.Got? ==>
                && ReadOff(machine.world, machine.sights, who, r.identity, retained)
                && Reread(machine.world, old(machine.sights), machine.sights, who, r.identity.uid, r.identity.exe)
      ensures r.Missing? ==> Unread(machine.world, old(machine.sights), machine.sights, listed)
      ensures machine.Still() ==> machine.world == old(machine.world)
      ensures machine.Still() && StatOf(machine.world, pid) == Some(stat) ==> r == ReadingNow(machine.world, pid, retained)
    {
      r := Missing;
      var owner, user := machine.ReadOwner(pid);
      ghost var second := machine.world;
      if owner == Some(Several) {
        r := Broken;
      } else if owner.Some? {
        KeepsPid(first, second, pid, who, user);
        var exe, image := machine.ReadImage(pid);
        r := Assemble(pid, stat, owner.value.uid, exe, retained);
        PersistsTwice(first, second, machine.world);
        if exe.Found? {
          KeepsPid(second, machine.world, pid, user, image);
        } else {
          assert Dead(machine.world, listed) || Holds(machine.world, pid, listed);
          assert Dead(machine.world, who) || Holds(machine.world, pid, who);
        }
      } else {
        assert !Holds(machine.world, pid, listed);
      }
    }

    /** Reads stat, status and exe, each in a kernel state of its own. */
    method ReadIdentity(pid: nat, retained: Option<Identity>, ghost listed: nat)
      returns (r: Reading, ghost first: World, ghost who: nat)
      requires machine.Valid() && OfPid(machine.world, listed, pid)
      modifies machine
      ensures machine.Later() && machine.delivered == old(machine.delivered)
      ensures WellFormed(first) && Persists(old(machine.world), first) && Persists(first, machine.world)
      ensures r.Got? ==> Holds(first, pid, who) && r.identity.pid == pid && r.identity.ticks == first.births[who].ticks
      ensures r.Got? ==>
                && ReadOff(machine.world, machine.sights, who, r.identity, retained)
                && Reread(machine.world, old(machine.sights), machine.sights, who, r.identity.uid, r.identity.exe)
      ensures r.Missing? ==> Unread(machine.world, old(machine.sights), machine.sights, listed)
      ensures machine.Still() ==> machine.world == old(machine.world) && r == ReadingNow(machine.world, pid, retained)
    {
      r := Missing;
      var stat, w := machine.ReadStat(pid);
      first, who := machine.world, w;
      if stat.Some? {
        r := ReadRest(pid, stat.value, retained, first, who, listed);
      } else {
        assert !Holds(machine.world, pid, listed);
      }
    }

    /** The identity of a listed pid could not be read: only a process that is gone may be passed over. */
    method MissingIdentity(pid: nat, ghost listed: nat) returns (v: Verdict)
      requires machine.Valid() && (pid in fds ==> Denotes(machine.world, pid, fds[pid]))
      requires OfPid(machine.world, listed, pid)
      modifies machine
      ensures machine.Later() && machine.delivered == old(machine.delivered)
      ensures v == Skipped || v == Refused
      ensures v == Skipped ==> Dead(machine.world, listed) || (pid in fds && fds[pid].birth != listed)
      ensures machine.Still() ==> machine.world == old(machine.world)
      ensures v == Refused ==>
                !NobodyLive(machine.world, pid) && (pid in fds ==> !old(Dead(machine.world, fds[pid].birth)))
      // On a kernel that stands still: exactly when the older binding, or whoever holds the pid now, has exited.
      ensures machine.Still() ==>
                (v == Skipped <==> (pid in fds && Dead(machine.world, fds[pid].birth)) || NobodyLive(machine.world, pid))
    {
      v := Skipped;
      var gone := false;
      if pid in fds {
        gone := machine.HasExited(fds[pid]);
      }
      if !gone {
        v := LookBehind(pid, listed);
      }
    }

    /** Whether whoever holds the pid of a listed process has exited. */
    method LookBehind(pid: nat, ghost listed: nat) returns (v: Verdict)
      requires machine.Valid() && OfPid(machine.world, listed, pid)
      modifies machine
      ensures machine.Later() && machine.delivered == old(machine.delivered)
      ensures v == Skipped || (v == Refused && !NobodyLive(machine.world, pid))
      ensures v == Skipped ==> Dead(machine.world, listed)
      ensures machine.Still() ==> machine.world == old(machine.world) && (v == Skipped <==> NobodyLive(machine.world, pid))
    {
      v := Skipped;
      var fd := machine.Open(pid);
      if fd.Some? {
        ghost var w := machine.world;
        KeepsPid(old(machine.world), w, pid, listed, fd.value.birth);
        OnlyHolder(w, pid, fd.value.birth);
        var gone := machine.HasExited(fd.value);
        if !gone {
          assert Holds(machine.world, pid, fd.value.birth);
          v := Refused;
        }
      } else {
        assert !Holds(machine.world, pid, listed);
      }
    }

    /** The second reading under a pidfd: equal identities bind the pidfd to the process of the first. */
    method Confirm(pid: nat, id: Identity, fd: PidFd, ghost first: World, ghost middle: World, ghost who: nat)
      returns (v: Verdict)
      requires machine.Valid()
      requires WellFormed(middle) && Persists(first, middle) && Persists(middle, machine.world)
      requires Holds(first, pid, who) && Holds(middle, pid, fd.birth)
      requires id.pid == pid && id.ticks == first.births[who].ticks
      modifies machine
      ensures machine.Later() && machine.delivered == old(machine.delivered)
      ensures v == Skipped ==> Dead(machine.world, fd.birth)
      ensures v == Counted ==>
                fd.birth == who && Reread(machine.world, old(machine.sights), machine.sights, fd.birth, id.uid, id.exe)
      ensures machine.Still() ==> machine.world == old(machine.world)
      ensures machine.Still() && IdentityNow(machine.world, pid) == Some(id) ==> v == Counted
    {
      var again, second, y := ReadIdentity(pid, Some(id), fd.birth);
      if again.Missing? {
        var gone := machine.HasExited(fd);
        return if gone then Skipped else Refused;
      }
      if again.Broken? || !SameProcess(id, again.identity) {
        return Refused;
      }
      assert Persists(middle, second);
      Sandwich(first, middle, second, pid, who, fd.birth, y);
      return Counted;
    }

    /** Opens a pidfd for an identity and keeps it only if a second reading agrees with the first. */
    method BindNew(pid: nat, id: Identity, ghost first: World, ghost who: nat, ghost listed: nat)
      returns (v: Verdict, fd: PidFd)
      requires machine.Valid()
      requires Persists(first, machine.world) && Holds(first, pid, who)
      requires id.pid == pid && id.ticks == first.births[who].ticks
      requires OfPid(machine.world, listed, pid)
      modifies machine
      ensures machine.Later() && machine.delivered == old(machine.delivered)
      ensures v == Skipped ==> Dead(machine.world, listed)
      ensures v == Counted ==> fd.birth == who && (who == listed || Dead(machine.world, listed))
      // The reading behind the opening of the pidfd showed the same user, and the same executable or none.
      ensures v == Counted ==> Reread(machine.world, old(machine.sights), machine.sights, who, id.uid, id.exe)
      ensures machine.Still() ==> machine.world == old(machine.world)
      ensures machine.Still() && IdentityNow(machine.world, pid) == Some(id) ==> v == Counted
    {
      fd := PidFd(0);
      var handle := machine.Open(pid);
      if handle.None? {
        assert !Holds(machine.world, pid, listed);
        return Skipped, fd;
      }
      fd := handle.value;
      ghost var middle := machine.world;
      KeepsPid(old(machine.world), middle, pid, listed, fd.birth);
      if IdentityNow(middle, pid).Some? {
        NowIsLive(middle, pid, fd.birth);
      }
      var gone := machine.HasExited(fd);
      if gone {
        return Skipped, fd;
      }
      v := Confirm(pid, id, fd, first, middle, who);
    }

    /** An identity read by pid belongs to the process of a retained pidfd that has not exited since. */
    method Recheck(pid: nat, fd: PidFd, ghost first: World, ghost who: nat) returns (v: Verdict)
      requires machine.Valid()
      requires WellFormed(first) && Persists(first, machine.world) && Holds(first, pid, who)
      requires fd.birth < |first.births| && first.births[fd.birth].pid == pid
      modifies machine
      ensures machine.Later() && machine.delivered == old(machine.delivered)
      ensures v == Skipped ==> Dead(machine.world, fd.birth)
      ensures v != Skipped ==> v == Counted && fd.birth == who
      ensures machine.Still() ==> machine.world == old(machine.world) && (v == Skipped <==> Dead(machine.world, fd.birth))
    {
      var gone := machine.HasExited(fd);
      if gone {
        return Skipped;
      }
      assert BothHold(first, pid, fd.birth, who);
      return Counted;
    }

    /** The pidfd of an identity: the retained one if its process has not exited, or a new one within the bound. */
    method Find(pid: nat, id: Identity, ghost first: World, ghost who: nat, ghost listed: nat) returns (v: Verdict, fd: PidFd)
      requires machine.Valid()
      requires WellFormed(first) && Persists(first, machine.world) && Holds(first, pid, who)
      requires id.pid == pid && id.ticks == first.births[who].ticks
      requires OfPid(machine.world, listed, pid) && (pid in fds ==> Denotes(first, pid, fds[pid]))
      modifies machine
      ensures machine.Later() && machine.delivered == old(machine.delivered)
      ensures v == Skipped ==> Dead(machine.world, if pid in fds then fds[pid].birth else listed)
      ensures v == Counted ==>
                && (if pid in fds then fd == fds[pid] else |fds| < MAX_OBSERVED && (who == listed || Dead(machine.world, listed)))
                && fd.birth == who
      ensures machine.Still() ==> machine.world == old(machine.world)
      ensures machine.Still() && pid in fds ==> (v == Skipped <==> Dead(machine.world, fds[pid].birth)) && v != Refused
      ensures machine.Still() && IdentityNow(machine.world, pid) == Some(id) && pid !in fds && |fds| < MAX_OBSERVED ==> v == Counted
    {
      if pid in fds {
        fd := fds[pid];
        v := Recheck(pid, fd, first, who);
      } else if |fds| >= MAX_OBSERVED {
        v, fd := Refused, PidFd(0);
      } else {
        v, fd := BindNew(pid, id, first, who, listed);
      }
    }

    /** Reads the identity of a listed pid; the birth that was retained is read only of the process bound. */
    method ReadListed(pid: nat, retained: Option<Identity>, ghost listed: nat) returns (r: Reading, ghost first: World, ghost who: nat)
      requires machine.Valid() && (pid in fds ==> Denotes(machine.world, pid, fds[pid]))
      requires OfPid(machine.world, listed, pid)
      requires retained.Some? ==>
                 && pid in fds && retained.value.ticks == machine.world.births[fds[pid].birth].ticks
                 && retained.value.pid == pid && retained.value.uid == uid
      modifies machine
      ensures machine.Later() && machine.delivered == old(machine.delivered)
      ensures WellFormed(first) && Persists(old(machine.world), first) && Persists(first, machine.world)
      ensures r.Got? ==>
                && Holds(first, pid, who) && r.identity.pid == pid && r.identity.ticks == first.births[who].ticks
                && (who == listed || Dead(machine.world, listed))
                && (retained.Some? && SameBirth(retained.value, r.identity) ==> who == fds[pid].birth)
                && ReadOff(machine.world, machine.sights, who, r.identity, retained)
                && Reread(machine.world, old(machine.sights), machine.sights, who, r.identity.uid, r.identity.exe)
      ensures r.Missing? ==> Unread(machine.world, old(machine.sights), machine.sights, listed)
      ensures machine.Still() ==> machine.world == old(machine.world)
      ensures machine.Still() && Behind(machine.world, pid, listed, fds) ==>
                && (r.Missing? <==> Unreadable(machine.world.births[listed]))
                && (r.Got? <==> machine.world.births[listed].owner.One? && ImageNow(machine.world.births[listed]).Found?)
                && (r.Got? ==> r.identity.uid == machine.world.births[listed].owner.uid
                               && (retained.Some? ==> !SameBirth(retained.value, r.identity)))
      ensures machine.Still() && Holds(machine.world, pid, listed) && ReadableAs(machine.world.births[listed], uid) ==>
                && r.Got? && r.identity.exe == machine.world.births[listed].exe.file && r.identity.uid == uid
                && Some(r.identity) == IdentityNow(machine.world, pid)
                && (retained.Some? && fds[pid].birth == listed ==> SameBirth(retained.value, r.identity))
      ensures machine.Still() && IsMember(machine.world, pid, listed) && machine.world.births[listed].leaderDead
              && retained.Some? && fds[pid].birth == listed ==>
                r.Got? && r.identity.exe == retained.value.exe && SameBirth(retained.value, r.identity)
      ensures machine.Still() && Faceless(machine.world, pid, listed, retained.Some?, fds) ==> r.Missing?
    {
      hide ReadOff, Reread, SeenLater, WellFormed, Assemble, StatOf, OwnerOf, ImageOf, GroupOf, ReadingNow, IdentityNow;
      r, first, who := ReadIdentity(pid, retained, listed);
      if machine.Still() && Behind(machine.world, pid, listed, fds) {
        EarlierIsReaped(machine.world, pid, listed, fds);
        ReadBehind(machine.world, pid, listed, fds, retained);
      }
      if Holds(machine.world, pid, listed) && machine.world.births[listed].stage == LIVE && machine.world.births[listed].owner.One? {
        ReadStanding(machine.world, pid, listed, retained);
      }
      if r.Got? {
        SameHolder(first, machine.world, pid, listed, who);
        if retained.Some? && SameBirth(retained.value, r.identity) {
          OneBirth(first, fds[pid].birth, who);
        }
      }
    }

    /** Finds the process behind a listed pid, under its retained pidfd or under a new one. */
    method Locate(pid: nat, retained: Option<Identity>, ghost listed: nat) returns (v: Verdict, id: Identity, fd: PidFd)
      requires machine.Valid() && (pid in fds ==> Denotes(machine.world, pid, fds[pid]))
      requires OfPid(machine.world, listed, pid) && AllAllowed(known)
      requires retained == if pid in known then Some(known[pid]) else None
      requires retained.Some? ==>
                 && pid in fds && retained.value.ticks == machine.world.births[fds[pid].birth].ticks
                 && retained.value.pid == pid && retained.value.uid == uid
      modifies machine
      ensures machine.Later() && machine.delivered == old(machine.delivered)
      ensures v == Skipped ==>
                Dead(machine.world, listed)
                || PassedOver(listed, pid, fds, if retained.Some? then {pid} else {}, old(machine.sights), machine.sights)
      ensures v == Counted ==>
                && (if pid in fds then fd == fds[pid] else |fds| < MAX_OBSERVED) && id.uid == uid
                && (fd.birth == listed || Dead(machine.world, listed))
                && OfPid(machine.world, fd.birth, pid) && id.pid == pid
                && machine.world.births[fd.birth].ticks == id.ticks
                && ReadOff(machine.world, machine.sights, fd.birth, id, retained)
                && Reread(machine.world, old(machine.sights), machine.sights, fd.birth, id.uid, id.exe)
      ensures machine.Still() ==> machine.world == old(machine.world)
      ensures machine.Still() ==> Foreseen(machine.world, pid, listed, known, fds, v)
      ensures machine.Still() && Countable(machine.world, pid, listed, known, fds) && v == Counted ==>
                AllowedExecutable(pid, id.exe) && IsMember(machine.world, pid, fd.birth)
    {
      hide ReadOff, Reread, SeenLater, WellFormed, Assemble, StatOf, OwnerOf, ImageOf, GroupOf, ReadingNow, IdentityNow;
      fd, id := PidFd(0), Identity(pid, 0, 0, 0, 0, false, interpreter);
      var reading, first, who := ReadListed(pid, retained, listed);
      ghost var w, s := machine.world, machine.sights;
      if machine.Still() && Behind(machine.world, pid, listed, fds) {
        EarlierIsReaped(machine.world, pid, listed, fds);
      }
      if reading.Missing? {
        v := MissingIdentity(pid, listed);
        SeenTwice(old(machine.sights), s, machine.sights);
        UnreadLater(w, machine.world, old(machine.sights), s, machine.sights, listed);
        return;
      }
      if reading.Broken? {
        return Refused, id, fd;
      }
      id := reading.identity;
      if id.uid != uid || (retained.Some? && !SameBirth(retained.value, id)) {
        return Refused, id, fd;
      }
      v, fd := Find(pid, id, first, who, listed);
      ReadingLater(w, machine.world, old(machine.sights), s, machine.sights, who, id, retained);
    }

    /** The cgroup and executable tests on a bound pid. */
    method Classify(pid: nat, id: Identity, fd: PidFd) returns (v: Verdict)
      requires machine.Valid()
      requires OfPid(machine.world, fd.birth, pid)
      modifies machine
      ensures machine.Later() && machine.delivered == old(machine.delivered)
      ensures v == Skipped ==> Dead(machine.world, fd.birth)
      ensures v == Counted ==>
                AllowedExecutable(pid, id.exe) && (Dead(machine.world, fd.birth) || InUnit(fd.birth) in machine.sights)
      ensures machine.Still() ==> machine.world == old(machine.world)
      ensures machine.Still() && GroupOf(machine.world, pid).None? ==>
                v == if Dead(machine.world, fd.birth) then Skipped else Refused
      ensures machine.Still() && IsMember(machine.world, pid, fd.birth) && AllowedExecutable(pid, id.exe) ==> v == Counted
    {
      var group, member := machine.ReadGroup(pid);
      if Holds(machine.world, pid, fd.birth) {
        ReadHolder(machine.world, pid, fd.birth);
      }
      if group.None? {
        var gone := machine.HasExited(fd);
        return if gone then Skipped else Refused;
      }
      if group.value != machine.watched || !AllowedExecutable(pid, id.exe) {
        return Refused;
      }
      KeepsPid(old(machine.world), machine.world, pid, fd.birth, member);
      return Counted;
    }

    /** Keeps a pidfd for a listed pid. */
    method Retain(pid: nat, retained: Option<Identity>, ghost listed: nat) returns (v: Verdict, id: Identity)
      requires Valid()
      requires retained == if pid in known then Some(known[pid]) else None
      requires OfPid(machine.world, listed, pid)
      modifies this`fds, machine
      ensures Valid() && Kept() && machine.delivered == old(machine.delivered)
      ensures AtMost(fds.Keys, old(fds).Keys, pid)
      ensures v == Skipped ==>
                Dead(machine.world, listed)
                || PassedOver(listed, pid, old(fds), if retained.Some? then {pid} else {}, old(machine.sights), machine.sights)
      ensures v == Counted ==>
                && pid in fds && id.pid == pid && id.uid == uid && id.ticks == machine.world.births[fds[pid].birth].ticks
                && (fds[pid].birth == listed || Dead(machine.world, listed))
                && (Dead(machine.world, fds[pid].birth) || Shown(machine.sights, fds[pid].birth, id))
                && Reread(machine.world, old(machine.sights), machine.sights, fds[pid].birth, id.uid, id.exe)
      ensures v != Counted ==> fds == old(fds)
      ensures machine.Still() ==> machine.world == old(machine.world)
      ensures machine.Still() ==> Foreseen(machine.world, pid, listed, known, old(fds), v)
      ensures machine.Still() && Countable(machine.world, pid, listed, known, old(fds)) && v == Counted ==>
                AllowedExecutable(pid, id.exe) && IsMember(machine.world, pid, fds[pid].birth)
    {
      hide Foreseen, Countable, Extends, IsMember;
      var fd;
      v, id, fd := Locate(pid, retained, listed);
      TimeKeeps();
      ExtendsItself(fds);
      if v == Counted && pid !in fds {
        BindMore(machine.world, known, fds, machine.sights, pid, fd);
        ExtendsByOne(fds, pid, fd);
        fds := fds[pid := fd];
      }
    }

    /** Keeps the identity of a bound pid that passes the tests of the unit. */
    method Admit(pid: nat, id: Identity, retained: Option<Identity>) returns (v: Verdict)
      requires Valid() && pid in fds && id.pid == pid && id.uid == uid
      requires id.ticks == machine.world.births[fds[pid].birth].ticks
      requires Dead(machine.world, fds[pid].birth) || Shown(machine.sights, fds[pid].birth, id)
      requires retained == if pid in known then Some(known[pid]) else None
      modifies this`known, machine
      ensures Valid() && Kept() && machine.delivered == old(machine.delivered)
      ensures v == Skipped ==> Dead(machine.world, fds[pid].birth)
      ensures v == Counted ==>
                pid in known && known[pid].exe == id.exe && known[pid].uid == id.uid && known[pid].ticks == id.ticks
      ensures known == old(known) || known == old(known)[pid := id]
      ensures v != Counted ==> known == old(known)
      ensures machine.Still() ==> machine.world == old(machine.world)
      ensures machine.Still() && GroupOf(machine.world, pid).None? ==>
                v == if Dead(machine.world, fds[pid].birth) then Skipped else Refused
      ensures machine.Still() && IsMember(machine.world, pid, fds[pid].birth) && AllowedExecutable(pid, id.exe) ==> v == Counted
      ensures AtMost(known.Keys, old(known).Keys, pid)
    {
      v := Classify(pid, id, fds[pid]);
      TimeKeeps();
      if v == Counted && (retained.None? || !SameProcess(retained.value, id)) {
        Know(pid, id);
      }
    }

    method Know(pid: nat, id: Identity)
      requires Valid() && pid in fds && id.pid == pid && id.uid == uid && AllowedExecutable(pid, id.exe)
      requires id.ticks == machine.world.births[fds[pid].birth].ticks
      requires Proven(machine.world, machine.sights, fds[pid].birth, id)
      modifies this`known
      ensures Valid() && known == old(known)[pid := id]
      ensures AtMost(known.Keys, old(known).Keys, pid) && old(known).Keys <= known.Keys
    {
      KnowMore(machine.world, known, fds, machine.sights, pid, id);
      known := known[pid := id];
    }

    /** One pid of the census. `listed` is the process that held it when the census was read. */
    method ObservePid(pid: nat, ghost listed: nat) returns (v: Verdict)
      requires Valid()
      requires OfPid(machine.world, listed, pid)
      modifies this, machine
      ensures Valid() && Kept() && machine.delivered == old(machine.delivered)
      ensures AtMost(fds.Keys, old(fds).Keys, pid)
      ensures v == Counted ==>
                && pid in known
                && pid in fds && Reread(machine.world, old(machine.sights), machine.sights, fds[pid].birth, known[pid].uid, known[pid].exe)
      ensures SameBut(old(known), known, pid)
      ensures v != Refused ==> AccountedFor(machine.world, machine.sights, listed, pid, v == Counted, fds, old(Before()))
      ensures machine.Still() ==> machine.world == old(machine.world)
      ensures AtMost(known.Keys, old(known).Keys, pid)
      ensures machine.Still() ==> Foreseen(machine.world, pid, listed, old(known), old(fds), v)
    {
      hide Reread, Shown, SeenLater, Countable, IsMember, Faceless, Behind, Overlooked, Extends, SameBut, AccountedFor, PassedOver, AtMost;
      var retained := if pid in known then Some(known[pid]) else None;
      var id;
      v, id := Retain(pid, retained, listed);
      ghost var w, s, found := machine.world, machine.sights, v;
      if v == Counted {
        v := Admit(pid, id, retained);
      } else {
        PersistsItself(w, s);
      }
      AtMostItself(known.Keys, pid);
      Concluded(old(machine.world), w, machine.world, old(machine.sights), s, machine.sights, listed, pid, found, v, id,
                old(known), known, old(fds), fds);
    }

    /** A poll of a retained pidfd. */
    method Poll(pid: nat) returns (gone: bool)
      requires Valid() && pid in fds
      modifies machine
      ensures Valid() && machine.Later() && machine.delivered == old(machine.delivered)
      ensures gone == Dead(machine.world, fds[pid].birth)
      ensures machine.Still() ==> machine.world == old(machine.world)
    {
      gone := machine.HasExited(fds[pid]);
      TimeKeeps();
    }

    /** Nothing bound outside `current` may still be running; `ok` is false exactly when something was seen to. */
    method OthersExited(current: set<nat>) returns (ok: bool)
      requires Valid()
      modifies machine
      ensures Valid() && machine.Later() && machine.delivered == old(machine.delivered)
      ensures ok ==> AllDead(machine.world, fds, fds.Keys - current)
      ensures !ok ==> exists pid :: pid in fds.Keys - current && !Dead(machine.world, fds[pid].birth)
      ensures machine.Still() ==> machine.world == old(machine.world)
    {
      var others := fds.Keys - current;
      var rest := others;
      while rest != {}
        invariant rest <= others
        invariant Valid() && machine.Later() && machine.delivered == old(machine.delivered)
        invariant AllDead(machine.world, fds, others - rest)
        invariant machine.Still() ==> machine.world == old(machine.world)
        decreases rest
      {
        NonEmpty(rest);
        var pid :| pid in rest;
        ghost var w, s := machine.world, machine.sights;
        var gone := Poll(pid);
        PersistsTwice(old(machine.world), w, machine.world);
        SeenTwice(old(machine.sights), s, machine.sights);
        if !gone {
          return false;
        }
        AllDeadNext(w, machine.world, fds, others, rest, pid);
        rest := rest - {pid};
      }
      return true;
    }

    /** The next pid of the census; `knew` and `had` are the tables from before the census. */
    method ObserveNext(pids: seq<nat>, ghost listed: seq<nat>, i: nat, ghost current: set<nat>,
                       ghost knew: map<nat, Identity>, ghost had: map<nat, PidFd>, ghost start: Sights) returns (v: Verdict)
      requires Valid() && i < |pids| && Going(machine.world, listed, pids, i, current, known, fds, knew, had)
      requires Accounted(machine.world, machine.sights, listed, pids, i, current, known, fds, Past(had, knew.Keys, start))
      requires SeenLater(start, machine.sights)
      requires knew.Keys <= known.Keys && forall pid | pid in had :: pid in fds && fds[pid] == had[pid]
      modifies this, machine
      ensures Valid() && Kept() && machine.delivered == old(machine.delivered)
      ensures Going(machine.world, listed, pids, i + 1, After(current, pids[i], v), known, fds, knew, had)
      ensures v != Refused ==>
                Accounted(machine.world, machine.sights, listed, pids, i + 1, After(current, pids[i], v), known, fds, Past(had, knew.Keys, start))
      ensures machine.Still() ==> machine.world == old(machine.world)
      ensures old(Easy(machine.world, listed, pids, knew, had)) ==>
                v == if pids[i] in Stale(machine.world, had) then Skipped else Counted
    {
      ghost var w, s, bound, knows := machine.world, machine.sights, fds, known;
      NotMetYet(w, listed, pids, i, current, known, fds, knew, had);
      if Easy(w, listed, pids, knew, had) {
        assert Simple(w, pids[i], listed[i], knew, had);
        StaysSimple(w, pids[i], listed[i], knew, had, known, fds);
        WithinBound(fds.Keys, had.Keys, pids, i);
      }
      v := ObservePid(pids[i], listed[i]);
      GoingNext(w, machine.world, listed, pids, i, current, v, knows, bound, known, fds, knew, had);
      if v != Refused {
        AccountedNext(w, machine.world, s, machine.sights, listed, pids, i, current, v, knows, bound,
                      known, fds, Past(had, knew.Keys, start));
      }
    }

    /** The same, with time counted from before the census. */
    method ObserveStep(pids: seq<nat>, ghost listed: seq<nat>, i: nat, ghost current: set<nat>, ghost start: World,
                       ghost knew: map<nat, Identity>, ghost had: map<nat, PidFd>, ghost seen: Sights) returns (v: Verdict)
      requires Valid() && i < |pids| && Going(machine.world, listed, pids, i, current, known, fds, knew, had)
      requires Accounted(machine.world, machine.sights, listed, pids, i, current, known, fds, Past(had, knew.Keys, seen))
      requires Since(start, knew, had, seen)
      modifies this, machine
      ensures Valid() && machine.delivered == old(machine.delivered) && Since(start, knew, had, seen)
      ensures Going(machine.world, listed, pids, i + 1, After(current, pids[i], v), known, fds, knew, had)
      ensures v != Refused ==>
                Accounted(machine.world, machine.sights, listed, pids, i + 1, After(current, pids[i], v), known, fds, Past(had, knew.Keys, seen))
      ensures machine.Still() ==> machine.world == old(machine.world)
      ensures old(WithEase(machine.world, listed, pids, i, current, knew, had)) ==>
                v != Refused && WithEase(machine.world, listed, pids, i + 1, After(current, pids[i], v), knew, had)
    {
      ghost var w, s, easy := machine.world, machine.sights, WithEase(machine.world, listed, pids, i, current, knew, had);
      v := ObserveNext(pids, listed, i, current, knew, had, seen);
      PersistsTwice(start, w, machine.world);
      SeenTwice(seen, s, machine.sights);
      if easy {
        AllButNext(current, pids, i, Stale(machine.world, had), v);
      }
    }

    /** An easy census, as far as it has come. */
    ghost predicate WithEase(w: World, listed: seq<nat>, pids: seq<nat>, i: nat, current: set<nat>,
                             knew: map<nat, Identity>, had: map<nat, PidFd>) {
      Easy(w, listed, pids, knew, had) && AllBut(current, pids, i, Stale(w, had))
    }

    /** Since then nothing that was retained was dropped or rebound. */
    ghost predicate Since(start: World, knew: map<nat, Identity>, had: map<nat, PidFd>, seen: Sights)
      reads this, machine
    {
      && Persists(start, machine.world) && SeenLater(seen, machine.sights)
      && knew.Keys <= known.Keys && forall pid | pid in had :: pid in fds && fds[pid] == had[pid]
    }

    /** Goes through the pids of the census; `listed` held them when it was read. */
    method ObserveAll(pids: seq<nat>, ghost listed: seq<nat>) returns (ok: bool, current: set<nat>)
      requires Valid() && Census(machine.world, listed, pids)
      modifies this, machine
      ensures Valid() && Kept() && machine.delivered == old(machine.delivered)
      ensures current <= known.Keys
      ensures ok ==> Accounted(machine.world, machine.sights, listed, pids, |pids|, current, known, fds, old(Before()))
      ensures machine.Still() ==> machine.world == old(machine.world)
      ensures old(Easy(machine.world, listed, pids, known, fds)) ==> ok && AllBut(current, pids, |pids|, Stale(machine.world, old(fds)))
      ensures MetOnly(fds.Keys, old(fds).Keys, pids, |pids|)
    {
      ok, current := true, {};
      ghost var start, knew, had, seen := machine.world, known, fds, machine.sights;
      ghost var easy := Easy(start, listed, pids, knew, had);
      GoingStarts(start, seen, listed, pids, known, fds);
      var i := 0;
      while i < |pids| && ok
        invariant Valid() && machine.delivered == old(machine.delivered) && Since(start, knew, had, seen)
        invariant Going(machine.world, listed, pids, i, current, known, fds, knew, had)
        invariant ok ==> Accounted(machine.world, machine.sights, listed, pids, i, current, known, fds, Past(had, knew.Keys, seen))
        invariant machine.Still() ==> machine.world == start
        invariant easy ==> ok && WithEase(machine.world, listed, pids, i, current, knew, had)
      {
        var v := ObserveStep(pids, listed, i, current, start, knew, had, seen);
        ok, current, i := v != Refused, After(current, pids[i], v), i + 1;
      }
      GoingEnds(machine.world, listed, pids, i, current, known, fds, knew, had);
    }

    /** The census and the exits around it: goes through the pids, and nothing bound outside them may still run. */
    method Settle(pids: seq<nat>, ghost listed: seq<nat>) returns (ok: bool, current: set<nat>)
      requires Valid() && Census(machine.world, listed, pids)
      modifies this, machine
      ensures Valid() && Kept() && machine.delivered == old(machine.delivered)
      ensures ok ==>
                && current <= known.Keys
                && AllDead(machine.world, fds, fds.Keys - current)
                && Accounted(machine.world, machine.sights, listed, pids, |pids|, current, known, fds, old(Before()))
      ensures machine.Still() ==> machine.world == old(machine.world)
      ensures old(Easy(machine.world, listed, pids, known, fds)) && old(AllDead(machine.world, fds, fds.Keys - Seen(pids, |pids|))) ==>
                ok && AllBut(current, pids, |pids|, Stale(machine.world, old(fds)))
      ensures MetOnly(fds.Keys, old(fds).Keys, pids, |pids|)
    {
      ok, current := ObserveAll(pids, listed);
      if !ok {
        return;
      }
      ghost var w, s := machine.world, machine.sights;
      if AllBut(current, pids, |pids|, Stale(w, old(fds))) && AllDead(w, old(fds), old(fds).Keys - Seen(pids, |pids|)) {
        NoOthers(w, old(fds), fds, pids, current);
      }
      ok := OthersExited(current);
      PersistsTwice(old(machine.world), w, machine.world);
      SeenTwice(old(machine.sights), s, machine.sights);
      AccountedLater(w, machine.world, s, machine.sights, listed, pids, |pids|, current, known, fds, old(Before()));
    }

    /**
     One census. When it goes through: every live process of the unit at the census is now bound and in
     `current`, or has exited, or was passed over behind an earlier process of its pid; every process ever
     bound is in `current` or has exited; and each one in `current` that lives showed its recorded user and
     its recorded executable, or none, during this very census.
     */
    method ObserveOnce(requireRuntime: bool)
      returns (ok: bool, current: set<nat>, ghost census: World, ghost listed: seq<nat>, ghost pids: seq<nat>)
      requires Valid()
      modifies this, machine
      ensures Valid() && Kept() && machine.delivered == old(machine.delivered)
      ensures Persists(old(machine.world), census) && Census(census, listed, pids)
      ensures forall b: nat :: b in listed <==> LivesIn(census, b, machine.watched)
      ensures ok ==>
                && current <= known.Keys
                && (requireRuntime ==> runtime in current)
                && UpToDate(machine.world, old(machine.sights), machine.sights, current, known, fds)
                && AllDead(machine.world, fds, fds.Keys - current)
                && Accounted(machine.world, machine.sights, listed, pids, |pids|, current, known, fds, old(Before()))
      ensures machine.Still() ==> machine.world == census == old(machine.world)
      ensures MetOnly(fds.Keys, old(fds).Keys, pids, |pids|)
      // On a kernel that stands still, with nothing else alive that was bound before: a census of countable members and
      // of overlooked processes goes through and counts exactly the countable members.
      ensures pids != [] && old(Smooth(listed, pids, requireRuntime)) ==> ok && AllBut(current, pids, |pids|, Stale(machine.world, old(fds)))
    {
      var list;
      ok, current := false, {};
      list, listed := machine.ReadMembers(machine.watched);
      census, pids := machine.world, list;
      ghost var s := machine.sights;
      TimeKeeps();
      CensusWithinBound(census, listed, pids, fds.Keys);
      if list == [] || |list| > MAX_OBSERVED {
        return;
      }
      ok, current := Settle(list, listed);
      PersistsTwice(old(machine.world), census, machine.world);
      SeenTwice(old(machine.sights), s, machine.sights);
      if ok {
        AccountedSince(machine.world, machine.sights, listed, pids, current, known, fds, Past(old(fds), old(known).Keys, s), old(machine.sights));
      }
      SeenIs(list, |list|, runtime);
      ok := ok && (requireRuntime ==> runtime in current);
    }

    /** A signal through a retained pidfd; false is ProcessLookupError, which only a reaped process gives. */
    method Send(pid: nat) returns (sent: bool)
      requires Valid() && pid in known
      modifies machine
      ensures Valid() && machine.Later()
      ensures sent == (machine.world.births[fds[pid].birth].stage < REAPED)
      ensures machine.delivered == if Dead(machine.world, fds[pid].birth) then old(machine.delivered)
                                   else old(machine.delivered) + {fds[pid].birth}
    {
      sent := machine.Signal(fds[pid]);
      BoundLater(old(machine.world), machine.world, known, fds);
      VettedLater(old(machine.world), machine.world, known, fds, old(machine.sights), machine.sights);
    }

    /** Signals one process of the last census through its pidfd. It never raises: a signal that finds no
        process is followed by a poll that sees the exit. */
    method SignalBound(pid: nat) returns (ok: bool)
      requires Valid() && pid in known
      modifies machine
      ensures Valid() && machine.Later()
      ensures ok && (Dead(machine.world, fds[pid].birth) || fds[pid].birth in machine.delivered)
      ensures machine.delivered <= old(machine.delivered) + {fds[pid].birth}
    {
      var gone := Poll(pid);
      if gone {
        return true;
      }
      ghost var w, s := machine.world, machine.sights;
      var sent := Send(pid);
      PersistsTwice(old(machine.world), w, machine.world);
      SeenTwice(old(machine.sights), s, machine.sights);
      ok := true;
      if !sent {
        w, s := machine.world, machine.sights;
        ok := Poll(pid);
        PersistsTwice(old(machine.world), w, machine.world);
        SeenTwice(old(machine.sights), s, machine.sights);
      }
    }

    /** The cleanup signal to every native process of a census; the helper is spared. */
    method SignalNative(current: set<nat>) returns (ok: bool)
      requires Valid() && current <= known.Keys
      modifies machine
      ensures Valid() && machine.Later()
      ensures ok && Reached(machine.world, machine.delivered, fds, current - {helper})
      ensures machine.delivered <= old(machine.delivered) + ProcessesOf(fds, current - {helper})
    {
      var native := current - {helper};
      var rest := native;
      ok := true;
      while rest != {} && ok
        invariant ok && rest <= native
        invariant Valid() && machine.Later()
        invariant Reached(machine.world, machine.delivered, fds, native - rest)
        invariant machine.delivered <= old(machine.delivered) + ProcessesOf(fds, native)
        decreases rest
      {
        NonEmpty(rest);
        var pid :| pid in rest;
        ghost var w, s, sent := machine.world, machine.sights, machine.delivered;
        ok := SignalBound(pid);
        ReachedNext(w, machine.world, sent, machine.delivered, fds, native, rest, pid);
        PersistsTwice(old(machine.world), w, machine.world);
        SeenTwice(old(machine.sights), s, machine.sights);
        rest := rest - {pid};
      }
    }
  }

  const UNIT := "/system.slice/elastos-journey"
  const PROGRAM := Executable("/data/bin/elastos", 1, 7)

  /** A process of the unit with pid 5. */
  function Member(ticks: nat, stage: nat): Process {
    Process(5, ticks, One(1000), Found(PROGRAM), UNIT, 5, 1, false, stage)
  }

  lemma ForkOne(w: World, child: Process)
    requires Enabled(w, Fork(child))
    ensures Play(w, [Fork(child)]) == World(w.births + [child])
  {
    assert Play(World(w.births + [child]), []) == World(w.births + [child]);
  }

  lemma ReapOne()
    ensures Play(World([Member(10, LIVE)]), [Change(0, Member(10, REAPED))]) == World([Member(10, REAPED)])
  {
    assert Play(World([Member(10, REAPED)]), []) == World([Member(10, REAPED)]);
  }

  /** An observer that has met nobody, and the first process of the unit. */
  method FirstOfUnit() returns (rt: FiniteRuntime)
    ensures rt.Valid() && rt.uid == 1000 && rt.machine.Still() && rt.machine.watched == UNIT
    ensures rt.machine.world == World([Member(10, LIVE)]) && rt.RunsAllowed(Member(10, LIVE), 5)
    ensures rt.known == map[] && rt.fds == map[]
    ensures fresh(rt) && fresh(rt.machine)
  {
    var machine := new Machine(n => [], UNIT);
    rt := new FiniteRuntime(machine, 1000, 1, 2, exe => exe == PROGRAM, PROGRAM);
    ForkOne(World([]), Member(10, LIVE));
    machine.Happen([Fork(Member(10, LIVE))]);
    assert machine.world == World([Member(10, LIVE)]);
  }

  /** Binds the first process and loses it before it is classified: its pid stays bound and never becomes known. */
  method BindAndLose() returns (rt: FiniteRuntime)
    ensures rt.Valid() && rt.uid == 1000 && rt.machine.Still() && rt.machine.watched == UNIT
    ensures rt.machine.world == World([Member(10, REAPED)])
    ensures rt.known == map[] && rt.fds == map[5 := PidFd(0)]
    ensures fresh(rt) && fresh(rt.machine)
  {
    rt := FirstOfUnit();
    var machine := rt.machine;
    var v, id := rt.Retain(5, None, 0);
    assert rt.fds == map[5 := PidFd(0)];
    ReapOne();
    label Reap:
    machine.Happen([Change(0, Member(10, REAPED))]);
    rt.TimeKeeps@Reap();
    assert GroupOf(machine.world, 5).None?;
    v := rt.Admit(5, id, None);
  }

  lemma OneOrAnother(pids: seq<nat>, p: nat)
    requires forall i, j | 0 <= i < j < |pids| :: pids[i] != pids[j]
    ensures |pids| <= 1 || exists i | 0 <= i < |pids| :: pids[i] != p
  {
    assert |pids| > 1 ==> pids[0] != p || pids[1] != p;
  }

  /** A census of a unit with one live process. */
  lemma OneMember(w: World, listed: seq<nat>, pids: seq<nat>, b: nat)
    requires Census(w, listed, pids) && OfPid(w, b, 5)
    requires forall c: nat :: c in listed <==> c == b
    ensures listed == [b] && pids == [5] && Seen(pids, 1) == {5}
  {
    assert b in listed;
    forall i: nat | i < |listed| ensures listed[i] == b && pids[i] == 5 {
      assert ListedAt(w, listed, pids, i) && listed[i] in listed;
    }
    forall i: nat, j: nat | i < j < |pids| ensures pids[i] != pids[j] {
      assert Apart(pids, i, j);
    }
    OneOrAnother(pids, 5);
  }

  lemma NextIsSimple(rt: FiniteRuntime, w: World, exe: Image, known: map<nat, Identity>, fds: map<nat, PidFd>)
    requires rt.uid == 1000 && w == World([Member(10, REAPED), Member(20, LIVE).(exe := exe)])
    requires fds.Keys == {5} && fds[5].birth == 0 && exe != Failing && (5 in known ==> exe == Gone)
    ensures rt.Simple(w, 5, 1, known, fds) && AllDead(w, fds, fds.Keys) && Stale(w, fds) == {5}
  {
  }

  /** Behind the older binding of its pid a new process of the unit is there, and a census goes through without it. */
  method NextCensus(rt: FiniteRuntime, exe: Image) returns (ok: bool, current: set<nat>)
    requires rt.Valid() && rt.uid == 1000 && rt.machine.Still() && rt.machine.watched == UNIT
    requires rt.machine.world == World([Member(10, REAPED)])
    requires 5 in rt.fds && rt.fds.Keys == {5} && exe != Failing && (5 in rt.known ==> exe == Gone)
    modifies rt, rt.machine
    ensures rt.Valid() && ok && current == {} && old(rt.known).Keys <= rt.known.Keys
    ensures rt.machine.world == World([Member(10, REAPED), Member(20, LIVE).(exe := exe)])
    ensures LivesIn(rt.machine.world, 1, rt.machine.watched) && 1 !in ProcessesOf(rt.fds, rt.fds.Keys)
  {
    hide Accounted, UpToDate, MetOnly, IdentityNow, ReadingNow, Vetted;
    var next := Member(20, LIVE).(exe := exe);
    ForkOne(rt.machine.world, next);
    rt.machine.Happen([Fork(next)]);
    rt.TimeKeeps();
    ghost var w := rt.machine.world;
    assert w == World([Member(10, REAPED), next]);
    assert Denotes(w, 5, rt.fds[5]) && rt.fds[5].birth == 0;
    NextIsSimple(rt, w, exe, rt.known, rt.fds);
    ghost var census, listed, pids;
    ok, current, census, listed, pids := rt.ObserveOnce(false);
    OneMember(w, listed, pids, 1);
  }

  /** The run in which a live member of the unit goes unseen under a pid that never became known. */
  method ReusedPidGoesUnseen() returns (rt: FiniteRuntime, ok: bool, current: set<nat>, ghost unseen: nat)
    ensures rt.Valid() && ok && current == {}
    ensures LivesIn(rt.machine.world, unseen, rt.machine.watched) && unseen !in ProcessesOf(rt.fds, rt.fds.Keys)
  {
    rt := BindAndLose();
    ok, current := NextCensus(rt, Found(PROGRAM));
    unseen := 1;
  }

  /** A census counts the first process, */
  method CountFirst() returns (rt: FiniteRuntime)
    ensures rt.Valid() && rt.uid == 1000 && rt.machine.Still() && rt.machine.watched == UNIT
    ensures rt.machine.world == World([Member(10, LIVE)])
    ensures 5 in rt.known && 5 in rt.fds && rt.fds.Keys == {5}
    ensures fresh(rt) && fresh(rt.machine)
  {
    hide Accounted, IdentityNow;
    rt := FirstOfUnit();
    assert rt.Simple(rt.machine.world, 5, 0, map[], map[]);
    var ok, current;
    ghost var census, listed, pids;
    ok, current, census, listed, pids := rt.ObserveOnce(false);
    OneMember(census, listed, pids, 0);
  }

  /** which then exits and is reaped. */
  method KnowAndLose() returns (rt: FiniteRuntime)
    ensures rt.Valid() && rt.uid == 1000 && rt.machine.Still() && rt.machine.watched == UNIT
    ensures rt.machine.world == World([Member(10, REAPED)])
    ensures 5 in rt.known && 5 in rt.fds && rt.fds.Keys == {5}
    ensures fresh(rt) && fresh(rt.machine)
  {
    rt := CountFirst();
    ReapOne();
    label Reap:
    rt.machine.Happen([Change(0, Member(10, REAPED))]);
    rt.TimeKeeps@Reap();
  }

  /** The run in which one goes unseen under a known pid: its executable was unlinked, and its main thread lives. */
  method UnlinkedGoesUnseen() returns (rt: FiniteRuntime, ok: bool, current: set<nat>, ghost unseen: nat)
    ensures rt.Valid() && ok && current == {} && 5 in rt.known
    ensures LivesIn(rt.machine.world, unseen, rt.machine.watched) && !rt.machine.world.births[unseen].leaderDead
    ensures unseen !in ProcessesOf(rt.fds, rt.fds.Keys)
  {
    rt := KnowAndLose();
    ok, current := NextCensus(rt, Gone);
    unseen := 1;
  }

  /** Each of these processes has exited or was sent a signal. */
  ghost predicate Reached(w: World, delivered: set<nat>, fds: map<nat, PidFd>, pids: set<nat>) {
    forall pid | pid in pids :: pid in fds && (Dead(w, fds[pid].birth) || fds[pid].birth in delivered)
  }

  lemma ReachedNext(w: World, v: World, delivered: set<nat>, more: set<nat>, fds: map<nat, PidFd>,
                    native: set<nat>, rest: set<nat>, pid: nat)
    requires Reached(w, delivered, fds, native - rest) && Persists(w, v) && delivered <= more
    requires pid in fds && (Dead(v, fds[pid].birth) || fds[pid].birth in more)
    ensures Reached(v, more, fds, native - (rest - {pid}))
  {
    forall p | p in native - (rest - {pid}) && p != pid ensures p in native - rest {
    }
  }

  /** The processes that the pidfds of some pids denote. */
  function ProcessesOf(fds: map<nat, PidFd>, pids: set<nat>): set<nat> {
    set pid | pid in pids && pid in fds :: fds[pid].birth
  }

  predicate ListedAt(w: World, listed: seq<nat>, pids: seq<nat>, i: nat) {
    i < |listed| == |pids| && OfPid(w, listed[i], pids[i])
  }

  predicate Apart(pids: seq<nat>, i: nat, j: nat) {
    i < j < |pids| && pids[i] != pids[j]
  }

  /** The processes of a census and the pids they held. */
  ghost predicate Census(w: World, listed: seq<nat>, pids: seq<nat>) {
    && |pids| == |listed|
    && (forall i: nat {:trigger ListedAt(w, listed, pids, i)} | i < |pids| :: ListedAt(w, listed, pids, i))
    && (forall i: nat, j: nat {:trigger Apart(pids, i, j)} | i < j < |pids| :: Apart(pids, i, j))
  }

  lemma CensusLater(w: World, v: World, listed: seq<nat>, pids: seq<nat>)
    requires Census(w, listed, pids) && Persists(w, v)
    ensures Census(v, listed, pids)
  {
    forall i: nat | i < |listed|
      ensures ListedAt(v, listed, pids, i)
    {
      assert ListedAt(w, listed, pids, i);
    }
  }

  /** The pid was bound to another process, and it was not known or the process showed no executable since the start. */
  predicate PassedOver(b: nat, pid: nat, before: map<nat, PidFd>, knew: set<nat>, start: Sights, s: Sights) {
    pid in before && before[pid].birth != b && (pid !in knew || Blanked(start, s, b))
  }

  /** The tables and the sights before a census, as far as they matter to what it passes over. */
  datatype Past = Past(fds: map<nat, PidFd>, knew: set<nat>, sights: Sights)

  /** What became of a process of the census. */
  ghost predicate AccountedFor(w: World, s: Sights, b: nat, pid: nat, counted: bool, fds: map<nat, PidFd>, past: Past) {
    || Dead(w, b)
    || (counted && pid in fds && fds[pid].birth == b)
    || (!counted && PassedOver(b, pid, past.fds, past.knew, past.sights, s))
  }

  ghost predicate Entry(w: World, s: Sights, listed: seq<nat>, pids: seq<nat>, j: nat, current: set<nat>, fds: map<nat, PidFd>, past: Past) {
    j < |listed| == |pids| && AccountedFor(w, s, listed[j], pids[j], pids[j] in current, fds, past)
  }

  ghost predicate Accounted(w: World, s: Sights, listed: seq<nat>, pids: seq<nat>, count: nat,
                            current: set<nat>, known: map<nat, Identity>, fds: map<nat, PidFd>, past: Past) {
    && count <= |listed| == |pids| && UpToDate(w, past.sights, s, current, known, fds)
    && forall j {:trigger Entry(w, s, listed, pids, j, current, fds, past)} | 0 <= j < count ::
         Entry(w, s, listed, pids, j, current, fds, past)
  }

  lemma AccountedLater(w: World, later: World, s: Sights, more: Sights, listed: seq<nat>, pids: seq<nat>, count: nat,
                       current: set<nat>, known: map<nat, Identity>, fds: map<nat, PidFd>, past: Past)
    requires Accounted(w, s, listed, pids, count, current, known, fds, past) && Persists(w, later) && SeenLater(s, more)
    ensures Accounted(later, more, listed, pids, count, current, known, fds, past)
  {
    UpToDateLater(w, later, past.sights, past.sights, s, more, current, known, fds);
    forall j | 0 <= j < count
      ensures Entry(later, more, listed, pids, j, current, fds, past)
    {
      assert Entry(w, s, listed, pids, j, current, fds, past);
    }
  }

  lemma AccountedSince(w: World, s: Sights, listed: seq<nat>, pids: seq<nat>, current: set<nat>, known: map<nat, Identity>,
                       fds: map<nat, PidFd>, past: Past, earlier: Sights)
    requires Accounted(w, s, listed, pids, |pids|, current, known, fds, past) && SeenLater(earlier, past.sights)
    ensures Accounted(w, s, listed, pids, |pids|, current, known, fds, past.(sights := earlier))
  {
    UpToDateLater(w, w, earlier, past.sights, s, s, current, known, fds);
    forall j | 0 <= j < |pids|
      ensures Entry(w, s, listed, pids, j, current, fds, past.(sights := earlier))
    {
      assert Entry(w, s, listed, pids, j, current, fds, past);
    }
  }

  /** Neither time nor more pidfds undo it, and the next pid joins. */
  lemma AccountedNext(w: World, later: World, s: Sights, more: Sights, listed: seq<nat>, pids: seq<nat>, i: nat, current: set<nat>,
                      v: Verdict, known: map<nat, Identity>, fds: map<nat, PidFd>, known': map<nat, Identity>, extended: map<nat, PidFd>,
                      past: Past)
    requires Accounted(w, s, listed, pids, i, current, known, fds, past) && i < |listed|
    requires Persists(w, later) && SeenLater(s, more) && SeenLater(past.sights, s)
    requires forall pid | pid in fds :: pid in extended && extended[pid] == fds[pid]
    requires pids[i] in fds ==> pids[i] in past.fds && past.fds[pids[i]] == fds[pids[i]]
    requires pids[i] !in current && past.knew <= known.Keys && SameBut(known, known', pids[i])
    requires v == Counted ==>
               pids[i] in known' && pids[i] in extended
               && Reread(later, s, more, extended[pids[i]].birth, known'[pids[i]].uid, known'[pids[i]].exe)
    requires forall j | 0 <= j < i :: pids[j] != pids[i]
    requires AccountedFor(later, more, listed[i], pids[i], v == Counted, extended, Past(fds, known.Keys, s))
    ensures Accounted(later, more, listed, pids, i + 1, After(current, pids[i], v), known', extended, past)
  {
    UpToDateNext(w, later, past.sights, s, more, current, pids[i], v, known, fds, known', extended);
    var counted := After(current, pids[i], v);
    forall j | 0 <= j < i + 1
      ensures Entry(later, more, listed, pids, j, counted, extended, past)
    {
      if j < i {
        assert Entry(w, s, listed, pids, j, current, fds, past);
      }
    }
  }

  /** Where the loop over a census stands. */
  ghost predicate Going(w: World, listed: seq<nat>, pids: seq<nat>, i: nat, current: set<nat>, known: map<nat, Identity>,
                        fds: map<nat, PidFd>, knew: map<nat, Identity>, had: map<nat, PidFd>) {
    && i <= |pids| && Census(w, listed, pids) && current <= known.Keys && current <= Seen(pids, i)
    && MetOnly(known.Keys, knew.Keys, pids, i) && MetOnly(fds.Keys, had.Keys, pids, i)
  }

  lemma GoingStarts(w: World, s: Sights, listed: seq<nat>, pids: seq<nat>, known: map<nat, Identity>, fds: map<nat, PidFd>)
    requires Census(w, listed, pids)
    ensures Going(w, listed, pids, 0, {}, known, fds, known, fds)
    ensures Accounted(w, s, listed, pids, 0, {}, known, fds, Past(fds, known.Keys, s)) && AllBut({}, pids, 0, Stale(w, fds))
  {
  }

  lemma GoingEnds(w: World, listed: seq<nat>, pids: seq<nat>, i: nat, current: set<nat>, known: map<nat, Identity>,
                  fds: map<nat, PidFd>, knew: map<nat, Identity>, had: map<nat, PidFd>)
    requires Going(w, listed, pids, i, current, known, fds, knew, had)
    ensures current <= known.Keys && MetOnly(fds.Keys, had.Keys, pids, |pids|) && i <= |pids|
  {
    forall p | p in Seen(pids, i) ensures p in Seen(pids, |pids|) {
      SeenIs(pids, i, p);
      SeenIs(pids, |pids|, p);
    }
  }

  lemma NotMetYet(w: World, listed: seq<nat>, pids: seq<nat>, i: nat, current: set<nat>, known: map<nat, Identity>,
                  fds: map<nat, PidFd>, knew: map<nat, Identity>, had: map<nat, PidFd>)
    requires Going(w, listed, pids, i, current, known, fds, knew, had) && i < |pids|
    ensures OfPid(w, listed[i], pids[i])
    ensures pids[i] !in current && forall j | 0 <= j < i :: pids[j] != pids[i]
    ensures (pids[i] in known ==> pids[i] in knew) && (pids[i] in fds ==> pids[i] in had)
  {
    assert ListedAt(w, listed, pids, i);
    SeenIs(pids, i, pids[i]);
    forall j: nat | j < i ensures pids[j] != pids[i] {
      assert Apart(pids, j, i);
    }
  }

  lemma GoingNext(w: World, later: World, listed: seq<nat>, pids: seq<nat>, i: nat, current: set<nat>, v: Verdict,
                  known: map<nat, Identity>, fds: map<nat, PidFd>, known': map<nat, Identity>, fds': map<nat, PidFd>,
                  knew: map<nat, Identity>, had: map<nat, PidFd>)
    requires Going(w, listed, pids, i, current, known, fds, knew, had) && i < |pids| && Persists(w, later)
    requires AtMost(known'.Keys, known.Keys, pids[i]) && AtMost(fds'.Keys, fds.Keys, pids[i])
    requires known.Keys <= known'.Keys && (v == Counted ==> pids[i] in known')
    ensures Going(later, listed, pids, i + 1, After(current, pids[i], v), known', fds', knew, had)
    ensures |fds'| <= |fds| + 1
  {
    CensusLater(w, later, listed, pids);
    MetNext(known'.Keys, known.Keys, knew.Keys, pids, i);
    MetNext(fds'.Keys, fds.Keys, had.Keys, pids, i);
    assert |fds'| == |fds'.Keys| && |fds| == |fds.Keys|;
  }
}
