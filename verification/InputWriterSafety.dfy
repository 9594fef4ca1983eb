/**
 What the input writer gate keeps over every run: any mix of human messages,
 commands, time, file and native errors, `close`, killed processes and restarts.
 */
module InputWriterSafety {
  import opened Wrappers
  import opened PendingRecord
  import opened InputWriter
  import opened Recency

  // ---------------------------------------------------------------- runs

  /** No gate runs in `Down`: only the pending file, the socket path and the X server remain. */
  datatype World = Down(file: PendingFile, socket: bool, native: Native) | Up(state: State)

  /** `Killed` is a command whose process dies after its effects and before its reply, `Died` a process that dies
      between two entry points, `ClearPath` the removal of a socket path that no gate uses. */
  datatype Event =
    | HumanInput(message: Message, at: real, fault: HandlerFault)
    | Call(request: Request, ticks: Ticks, io: Io)
    | Killed(request: Request, ticks: Ticks, io: Io)
    | Died
    | CloseGate(kept: bool)
    | ClearPath
    | Restart(at: real, native: Native, setup: Setup)

  function FileOf(w: World): PendingFile {
    match w
    case Down(f, _, _) => f
    case Up(s) => s.file
  }

  function SocketOf(w: World): bool {
    match w
    case Down(_, socket, _) => socket
    case Up(s) => s.socket
  }

  /** What a process leaves behind. */
  function Left(s: State): World {
    Down(s.file, s.socket, s.native)
  }

  /** A start that fails leaves the gate that there was. */
  function Started(w: World, at: real, native: Native, setup: Setup): World {
    match Start(FileOf(w), SocketOf(w), native, at, setup)
    case (Some(s), _) => Up(s)
    case (None, socket) => if w.Up? then Up(w.state.(socket := socket)) else Down(w.file, socket, native)
  }

  function Next(w: World, e: Event): World {
    match e
    case Restart(at, native, setup) => Started(w, at, native, setup)
    case HumanInput(m, at, fault) => if w.Up? then Up(Human(w.state, m, at, fault)) else w
    case Call(q, t, io) => if w.Up? then Up(Command(w.state, q, t, io).0) else w
    case Killed(q, t, io) => if w.Up? then Left(Command(w.state, q, t, io).0) else w
    case Died => if w.Up? then Left(w.state) else w
    case CloseGate(kept) => if w.Up? then Up(Close(w.state, kept)) else w
    case ClearPath =>
      if w.Down? then w.(socket := false) else if w.state.closed then Up(w.state.(socket := false)) else w
  }

  /** The readings of one event never go backwards, nor before `now`. */
  predicate Timely(e: Event, now: real) {
    match e
    case HumanInput(_, at, _) => now <= at
    case Call(_, t, _) => now <= t.enter <= t.check <= t.grant <= t.late <= t.exit <= t.reply
    case Killed(_, t, _) => now <= t.enter <= t.check <= t.grant <= t.late <= t.exit <= t.reply
    case Restart(at, _, _) => now <= at
    case _ => true
  }

  function Clock(e: Event, now: real): real {
    match e
    case HumanInput(_, at, _) => at
    case Call(_, t, _) => t.reply
    case Killed(_, t, _) => t.reply
    case Restart(at, _, _) => at
    case _ => now
  }

  function Run(w: World, events: seq<Event>): World
    decreases |events|
  {
    if events == [] then w else Run(Next(w, events[0]), events[1..])
  }

  predicate TimelyRun(events: seq<Event>, now: real)
    decreases |events|
  {
    events == [] || (Timely(events[0], now) && TimelyRun(events[1..], Clock(events[0], now)))
  }

  // ---------------------------------------------------------------- the invariant

  function Recorded(admission: string, effect: string): PendingFile {
    Present(true, Write(Record(admission, effect)))
  }

  ghost predicate LeaseInv(s: State, l: Lease, now: real) {
    && ValidAdmission(l.id)
    && s.keys == {}
    && (l.pending.Some? ==> ValidEffect(l.pending.value) && s.file == Recorded(l.id, l.pending.value))
    && (l.id in s.retired ==> Over(l, now))
  }

  ghost predicate Inv(s: State, now: real) {
    && s.retired == Recent(s.history, MAX_RETIRED)
    && |s.keys| <= MAX_KEYS
    && (s.closed ==> s.lease.None?)
    && (!s.closed ==> s.socket)
    && (s.lease.Some? ==> LeaseInv(s, s.lease.value, now))
  }

  ghost predicate WorldInv(w: World, now: real) {
    w.Up? ==> Inv(w.state, now)
  }

  lemma RetireInv(s: State, id: string, now: real)
    requires Inv(s, now)
    requires s.lease.Some? && s.lease.value.id == id ==> Over(s.lease.value, now)
    ensures Inv(Retire(s, id), now)
    ensures id in Retire(s, id).retired
  {
    RecentStep(s.history, id, MAX_RETIRED);
    WithoutFacts(s.retired, id);
    var longer := Without(s.retired, id) + [id];
    assert longer[|longer| - 1] == id;
  }

  lemma ActiveInv(s: State, t: real, now: real)
    requires Inv(s, now) && now <= t
    ensures Inv(Active(s, t), t)
    ensures Active(s, t).lease.Some? ==> s.lease == Active(s, t).lease
  {
    assert Inv(s, t);
    if s.lease.Some? && Over(s.lease.value, t) {
      RetireInv(s, s.lease.value.id, t);
    }
  }

  lemma AcquireInv(a: State, q: Request, t: Ticks, io: Io)
    requires Inv(a, t.exit) && ValidAdmission(q.admission) && !a.closed
    ensures Inv(AcquireLease(a, q.admission, q.duration, t, io).0, t.exit)
  {
    if a.lease.None? {
      RetireInv(a.(keys := {}, native := Native(a.native.pressed - a.keys, true)), q.admission, t.exit);
    }
  }

  lemma DispatchInv(a: State, q: Request, t: Ticks, io: Io)
    requires Inv(a, t.enter) && ValidAdmission(q.admission) && !a.closed
    requires t.enter <= t.check <= t.grant <= t.late <= t.exit <= t.reply
    ensures Inv(Dispatch(a, q, t, io).0, t.exit)
  {
    assert Inv(a, t.exit);
    match q.verb {
      case Release =>
        var over := if a.lease.Some? && a.lease.value.id == q.admission
                    then a.(lease := Some(a.lease.value.(releaseRequested := true))) else a;
        RetireInv(over, q.admission, t.exit);
      case Acquire =>
        AcquireInv(a, q, t, io);
      case _ =>
    }
  }

  lemma CommandInv(s: State, q: Request, t: Ticks, io: Io, now: real)
    requires Inv(s, now) && Timely(Call(q, t, io), now)
    ensures Inv(Command(s, q, t, io).0, t.reply)
  {
    if Admitted(s, q, io) {
      ActiveInv(s, t.enter, now);
      var a := Active(s, t.enter);
      DispatchInv(a, q, t, io);
      ActiveInv(Dispatch(a, q, t, io).0, t.exit, t.exit);
    }
  }

  lemma HumanInv(s: State, m: Message, at: real, fault: HandlerFault, now: real)
    requires Inv(s, now) && now <= at
    ensures Inv(Human(s, m, at, fault), at)
  {
    ActiveInv(s, at, now);
  }

  lemma CommandKeeps(s: State, q: Request, t: Ticks, io: Io)
    ensures forall now | Inv(s, now) && Timely(Call(q, t, io), now) :: Inv(Command(s, q, t, io).0, t.reply)
  {
    forall now | Inv(s, now) && Timely(Call(q, t, io), now)
      ensures Inv(Command(s, q, t, io).0, t.reply)
    {
      CommandInv(s, q, t, io, now);
    }
  }

  lemma HumanKeeps(s: State, m: Message, at: real, fault: HandlerFault)
    ensures forall now | Inv(s, now) && now <= at :: Inv(Human(s, m, at, fault), at)
  {
    forall now | Inv(s, now) && now <= at
      ensures Inv(Human(s, m, at, fault), at)
    {
      HumanInv(s, m, at, fault, now);
    }
  }

  lemma StartInv(file: PendingFile, socket: bool, native: Native, at: real, setup: Setup)
    ensures Start(file, socket, native, at, setup).0.Some? ==> Inv(Start(file, socket, native, at, setup).0.value, at)
  {
    if file.Present? && Read(file.text).Some? && Start(file, socket, native, at, setup).0.Some? {
      assert Start(file, socket, native, at, setup).0.value.lease.value.id == Read(file.text).value.admission;
    }
  }

  /** The invariant holds in every reachable world. */
  lemma NextInv(w: World, e: Event, now: real)
    requires WorldInv(w, now) && Timely(e, now)
    ensures WorldInv(Next(w, e), Clock(e, now))
  {
    match e {
      case Restart(at, native, setup) => StartInv(FileOf(w), SocketOf(w), native, at, setup);
      case HumanInput(m, at, fault) => if w.Up? { HumanInv(w.state, m, at, fault, now); }
      case Call(q, t, io) => if w.Up? { CommandInv(w.state, q, t, io, now); }
      case _ =>
    }
  }

  // ---------------------------------------------------------------- the unresolved effect

  /** The effect `(a, e)` was acknowledged and not settled: the file names it, and so does any open gate. */
  ghost predicate Holds(w: World, a: string, e: string) {
    && Valid(Record(a, e))
    && FileOf(w) == Recorded(a, e)
    && (w.Up? && !w.state.closed ==>
          w.state.lease.Some? && w.state.lease.value.id == a && w.state.lease.value.pending == Some(e))
  }

  /** A settle of exactly this effect, answered or cut off, that an open gate admits and whose unlink works. */
  predicate Removes(w: World, ev: Event, a: string, e: string) {
    && w.Up? && (ev.Call? || ev.Killed?)
    && ev.request.verb == Settle && ev.request.admission == a && ev.request.effect == e
    && Admitted(w.state, ev.request, ev.io) && !ev.io.file.UnlinkFails?
  }

  /** The outcome a caller of the gate sees, if any. */
  function Replied(w: World, ev: Event): bool {
    ev.Call? && w.Up? && Command(w.state, ev.request, ev.ticks, ev.io).1.Reply?
  }

  /** What the outside may see of one event while `(a, e)` is unresolved. */
  ghost predicate Silent(w: World, ev: Event, a: string, e: string) {
    && (ev.HumanInput? && w.Up? && Forwards(w.state, ev.message, ev.at) ==> ev.message.command == "pong")
    && (Replied(w, ev) && ev.request.verb == Acquire ==> ev.request.admission == a)
    && (Replied(w, ev) && ev.request.verb == Begin ==> ev.request.admission == a && ev.request.effect == e)
  }

  /** A `begin` that returns leaves its effect on disk and in the lease. */
  lemma BeginRecords(w: World, q: Request, t: Ticks, io: Io, now: real)
    requires WorldInv(w, now) && Timely(Call(q, t, io), now)
    requires q.verb == Begin && Replied(w, Call(q, t, io))
    ensures Holds(Next(w, Call(q, t, io)), q.admission, q.effect)
  {
    ActiveInv(w.state, t.enter, now);
  }

  lemma CommandHolds(s: State, q: Request, t: Ticks, io: Io, a: string, e: string)
    requires Holds(Up(s), a, e)
    ensures var s' := Command(s, q, t, io).0;
            if Removes(Up(s), Call(q, t, io), a, e) then s'.file.Absent? else Holds(Up(s'), a, e) && Holds(Left(s'), a, e)
  {
    if Admitted(s, q, io) {
      var act := Active(s, t.enter);
      assert Holds(Up(act), a, e);
      var (d, ok) := Dispatch(act, q, t, io);
      assert if Removes(Up(s), Call(q, t, io), a, e) then d.file.Absent? else Holds(Up(d), a, e);
    }
  }

  /** Over a file that names an effect a start comes up exactly when no socket path is left and the setup works,
      and then with the effect unresolved; in every case the effect stays. */
  lemma RestartHolds(w: World, at: real, native: Native, setup: Setup, a: string, e: string)
    requires Holds(w, a, e)
    ensures Holds(Next(w, Restart(at, native, setup)), a, e)
    ensures var s := Start(FileOf(w), SocketOf(w), native, at, setup).0;
            && (s.Some? <==> !SocketOf(w) && setup.SetupWorks?)
            && (s.Some? ==> Next(w, Restart(at, native, setup)) == Up(s.value)
                            && s.value.lease == Some(Lease(a, at, Some(e), true)) && s.value.retired == [] && s.value.keys == {})
  {
    ReadBack(Record(a, e));
  }

  /** A process that dies leaves its socket path, and over that path no gate starts until it is cleared. */
  lemma {:induction false} LeftPathKeepsDown(w: World, events: seq<Event>)
    requires w.Down? && w.socket
    requires ClearPath !in events
    ensures Run(w, events).Down? && Run(w, events).socket && Run(w, events).file == w.file
    decreases |events|
  {
    if events != [] {
      assert events[0] in events && events[0] != ClearPath;
      LeftPathKeepsDown(Next(w, events[0]), events[1..]);
    }
  }

  /** After the death of an open gate no other comes up before its path is cleared, whatever the file says. */
  lemma DeathNeedsClearing(w: World, ev: Event, events: seq<Event>, now: real)
    requires WorldInv(w, now) && w.Up? && !w.state.closed
    requires (ev.Killed? || ev.Died?) && ClearPath !in events
    ensures Run(Next(w, ev), events).Down? && Run(Next(w, ev), events).file == FileOf(Next(w, ev))
  {
    LeftPathKeepsDown(Next(w, ev), events);
  }

  /** The unresolved effect is over exactly when the file is gone, and that is exactly when its own settle goes through. */
  lemma HoldsUnlessRemoved(w: World, ev: Event, a: string, e: string)
    requires Holds(w, a, e)
    ensures Holds(Next(w, ev), a, e) <==> !Removes(w, ev, a, e)
    ensures FileOf(Next(w, ev)).Absent? <==> Removes(w, ev, a, e)
  {
    match ev {
      case Restart(at, native, setup) => RestartHolds(w, at, native, setup, a, e);
      case Call(q, t, io) => if w.Up? { CommandHolds(w.state, q, t, io, a, e); }
      case Killed(q, t, io) => if w.Up? { CommandHolds(w.state, q, t, io, a, e); }
      case _ =>
    }
  }

  /** In a process that lives to answer, the file goes exactly when the exact settle returns. */
  lemma RemovedExactlyByReturn(w: World, q: Request, t: Ticks, io: Io, a: string, e: string)
    requires Holds(w, a, e)
    requires q.verb == Settle && q.admission == a && q.effect == e
    ensures Removes(w, Call(q, t, io), a, e) <==> Replied(w, Call(q, t, io))
  {
    if w.Up? && Admitted(w.state, q, io) {
      assert Holds(Up(Active(w.state, t.enter)), a, e);
    }
  }

  /** A process killed between the unlink and the reply ends the effect with no settle ever returning. */
  lemma KilledSettleEndsTheEffect(a: string, e: string)
    requires Valid(Record(a, e))
    ensures var s := State(Some(Lease(a, 0.0, Some(e), true)), [], [], {}, false, true, Recorded(a, e), Native({}, true));
            var ev := Killed(Request(true, Settle, a, e, None), Ticks(0.0, 0.0, 0.0, 0.0, 0.0, 0.0), Io(false, false, Works, NativeWorks));
            Holds(Up(s), a, e) && FileOf(Next(Up(s), ev)).Absent? && !Replied(Up(s), ev)
  {
    var s := State(Some(Lease(a, 0.0, Some(e), true)), [], [], {}, false, true, Recorded(a, e), Native({}, true));
    var t := Ticks(0.0, 0.0, 0.0, 0.0, 0.0, 0.0);
    var io := Io(false, false, Works, NativeWorks);
    var q := Request(true, Settle, a, e, None);
    var act := Active(s, 0.0);
    assert act.lease == s.lease && act.file == s.file;
    var (d, ok) := SettleEffect(act, a, e, io);
    assert ok && d.file.Absent?;
    assert Command(s, q, t, io).0.file.Absent?;
  }

  lemma HoldsIsSilent(w: World, ev: Event, a: string, e: string)
    requires Holds(w, a, e)
    ensures Silent(w, ev, a, e)
  {
    match ev {
      case HumanInput(m, at, fault) => if w.Up? { assert w.state.closed || Active(w.state, at).lease.Some?; }
      case Call(q, t, io) =>
        if w.Up? && Admitted(w.state, q, io) {
          assert Holds(Up(Active(w.state, t.enter)), a, e);
        }
      case _ =>
    }
  }

  ghost predicate NeverRemoved(w: World, events: seq<Event>, a: string, e: string)
    decreases |events|
  {
    events == [] || (!Removes(w, events[0], a, e) && NeverRemoved(Next(w, events[0]), events[1..], a, e))
  }

  ghost predicate SilentRun(w: World, events: seq<Event>, a: string, e: string)
    decreases |events|
  {
    events == [] || (Silent(w, events[0], a, e) && SilentRun(Next(w, events[0]), events[1..], a, e))
  }

  /**
   From a `begin` that returned, over every mix of commands, messages, time, errors, `close`, killed
   processes and restarts that does not remove its file: no human message but `pong` is forwarded, and
   no other admission or effect is granted. Every gate that comes up finds the effect again.
   */
  lemma {:induction false} UnresolvedEffectBlocks(w: World, events: seq<Event>, a: string, e: string)
    requires Holds(w, a, e) && NeverRemoved(w, events, a, e)
    ensures SilentRun(w, events, a, e)
    ensures Holds(Run(w, events), a, e)
    decreases |events|
  {
    if events != [] {
      HoldsIsSilent(w, events[0], a, e);
      HoldsUnlessRemoved(w, events[0], a, e);
      UnresolvedEffectBlocks(Next(w, events[0]), events[1..], a, e);
    }
  }

  /** The whole claim, from any reachable gate. */
  lemma AcknowledgedEffectBlocks(w: World, q: Request, t: Ticks, io: Io, now: real, events: seq<Event>)
    requires WorldInv(w, now) && Timely(Call(q, t, io), now)
    requires q.verb == Begin && Replied(w, Call(q, t, io))
    requires NeverRemoved(Next(w, Call(q, t, io)), events, q.admission, q.effect)
    ensures SilentRun(Next(w, Call(q, t, io)), events, q.admission, q.effect)
    ensures Holds(Run(Next(w, Call(q, t, io)), events), q.admission, q.effect)
  {
    BeginRecords(w, q, t, io, now);
    UnresolvedEffectBlocks(Next(w, Call(q, t, io)), events, q.admission, q.effect);
  }

  /** Once the exact settle has returned, human input passes again from the lease's expiry on. */
  lemma SettleReopens(s: State, q: Request, t: Ticks, io: Io, m: Message, at: real, a: string, e: string)
    requires Holds(Up(s), a, e) && !s.closed
    requires q.verb == Settle && q.admission == a && q.effect == e && Replied(Up(s), Call(q, t, io))
    requires at >= s.lease.value.expires
    requires WellFormed(Command(s, q, t, io).0, m)
    ensures Forwards(Command(s, q, t, io).0, m, at)
  {
    assert Holds(Up(Active(s, t.enter)), a, e);
  }

  // ---------------------------------------------------------------- leases and keys

  ghost predicate SameLease(before: Option<Lease>, l: Lease) {
    && before.Some? && l.id == before.value.id && l.expires == before.value.expires
    && (before.value.releaseRequested ==> l.releaseRequested)
  }

  ghost predicate NewLease(a: State, q: Request, t: Ticks, l: Lease) {
    && q.verb == Acquire && l.id == q.admission && l.id !in a.retired && a.lease.None?
    && t.grant + 2.0 <= l.expires <= t.grant + 30.0 && t.late < l.expires
  }

  lemma DispatchLease(a: State, q: Request, t: Ticks, io: Io)
    requires Dispatch(a, q, t, io).0.lease.Some?
    ensures var (d, ok) := Dispatch(a, q, t, io);
            SameLease(a.lease, d.lease.value) || (ok && NewLease(a, q, t, d.lease.value))
  {
    match q.verb {
      case Acquire =>
        if q.duration.Some? && 2000 <= q.duration.value <= 30000 {
          var ms := q.duration.value as real;
          assert 2.0 <= ms / 1000.0 <= 30.0;
        }
      case _ =>
    }
  }

  /** A command keeps a held lease's expiry, or grants a new id that the list does not remember. */
  lemma LeaseStep(s: State, q: Request, t: Ticks, io: Io, now: real)
    requires Inv(s, now) && Timely(Call(q, t, io), now)
    requires Command(s, q, t, io).0.lease.Some?
    ensures var l := Command(s, q, t, io).0.lease.value;
            SameLease(s.lease, l) || (NewLease(Active(s, t.enter), q, t, l) && Replied(Up(s), Call(q, t, io)))
  {
    if Admitted(s, q, io) {
      var a := Active(s, t.enter);
      var d := Dispatch(a, q, t, io).0;
      assert a.lease.Some? ==> a.lease == s.lease;
      assert Command(s, q, t, io).0.lease == d.lease;
      DispatchLease(a, q, t, io);
    }
  }

  /** An id retired in this process is granted again only after 128 other distinct ids were retired. */
  lemma NoEarlyRegrant(s: State, q: Request, t: Ticks, io: Io, before: seq<string>, after: seq<string>)
    requires Active(s, t.enter).retired == Recent(Active(s, t.enter).history, MAX_RETIRED)
    requires Active(s, t.enter).history == before + ([q.admission] + after) && q.admission !in after
    requires |Distinct(after)| < MAX_RETIRED && q.verb == Acquire
    ensures !Replied(Up(s), Call(q, t, io))
  {
    RecentUntilPushedOut(before, q.admission, after, MAX_RETIRED);
  }

  /** Every key held down at the X server is one the gate knows of. */
  predicate Tracked(s: State) {
    s.native.pressed <= s.keys
  }

  /** While a lease is held no key is down, and the barrier has passed since the last key event. */
  predicate HandedOver(s: State) {
    s.lease.Some? ==> s.native.pressed == {} && s.native.settled
  }

  /** A handler that raised after delivering a key-down the gate did not know yet. */
  predicate LosesKey(s: State, ev: Event) {
    && ev.HumanInput? && ev.fault == Raises(true) && Forwards(s, ev.message, ev.at)
    && ev.message.command == "kd" && ev.message.key.value !in s.keys
  }

  lemma DispatchTracked(a: State, q: Request, t: Ticks, io: Io)
    requires Tracked(a)
    ensures Tracked(Dispatch(a, q, t, io).0)
  {
    if io.native.KeyUpFails? { SmallestGrows(a.keys, io.native.sent, io.native.sent); }
  }

  /** Within one process a key is lost track of exactly when such a handler call happens. */
  lemma TrackedUnlessLost(s: State, ev: Event)
    requires Tracked(s) && !ev.Restart? && !ev.Killed? && !ev.Died?
    ensures Tracked(Next(Up(s), ev).state) <==> !LosesKey(s, ev)
  {
    match ev {
      case Call(q, t, io) =>
        if Admitted(s, q, io) {
          DispatchTracked(Active(s, t.enter), q, t, io);
        }
      case HumanInput(m, at, fault) =>
        if LosesKey(s, ev) {
          assert m.key.value in Next(Up(s), ev).state.native.pressed;
        }
      case _ =>
    }
  }

  /** A grant releases every known key and passes the barrier, so nothing stays down iff nothing was lost. */
  lemma GrantHandsOver(s: State, q: Request, t: Ticks, io: Io, now: real)
    requires Inv(s, now) && Timely(Call(q, t, io), now)
    requires q.verb == Acquire && Replied(Up(s), Call(q, t, io)) && Active(s, t.enter).lease.None?
    ensures var z := Command(s, q, t, io).0;
            z.native.settled && z.keys == {} && (z.native.pressed == {} <==> Tracked(s))
  {
    ActiveInv(s, t.enter, now);
    var a := Active(s, t.enter);
    var (d, ok) := Dispatch(a, q, t, io);
    assert d.native.pressed == s.native.pressed - s.keys;
    var z := Command(s, q, t, io).0;
    assert z.native == d.native;
    if z.native.pressed == {} {
      assert forall k | k in s.native.pressed :: k in s.keys || k in z.native.pressed;
    }
  }

  lemma CommandHandedOver(s: State, q: Request, t: Ticks, io: Io, now: real)
    requires Inv(s, now) && Timely(Call(q, t, io), now) && Tracked(s) && HandedOver(s)
    ensures HandedOver(Command(s, q, t, io).0)
  {
    if Admitted(s, q, io) && Command(s, q, t, io).0.lease.Some? {
      LeaseStep(s, q, t, io, now);
      if Active(s, t.enter).lease.None? {
        GrantHandsOver(s, q, t, io, now);
      } else {
        var d := Dispatch(Active(s, t.enter), q, t, io).0;
        assert d.native == s.native;
      }
    }
  }

  lemma HandedOverStep(s: State, ev: Event, now: real)
    requires Inv(s, now) && Timely(ev, now) && Tracked(s) && HandedOver(s)
    requires !ev.Restart? && !ev.Killed? && !ev.Died?
    ensures HandedOver(Next(Up(s), ev).state)
  {
    match ev {
      case Call(q, t, io) => CommandHandedOver(s, q, t, io, now);
      case HumanInput(m, at, fault) => ActiveInv(s, at, now);
      case _ =>
    }
  }

  ghost predicate OneProcess(w: World, events: seq<Event>)
    requires w.Up?
    decreases |events|
  {
    events == [] || (!events[0].Restart? && !events[0].Killed? && !events[0].Died? && !LosesKey(w.state, events[0])
                     && OneProcess(Next(w, events[0]), events[1..]))
  }

  /** Over any run of one process that starts with no key down and loses none: a held lease means no key is
      down, at most 256 keys are tracked, and none while a lease is held. */
  lemma {:induction false} LeaseMeansHandover(w: World, events: seq<Event>, now: real)
    requires w.Up? && Inv(w.state, now) && Tracked(w.state) && HandedOver(w.state)
    requires TimelyRun(events, now) && OneProcess(w, events)
    ensures var z := Run(w, events);
            && z.Up? && HandedOver(z.state) && Tracked(z.state)
            && |z.state.keys| <= MAX_KEYS && (z.state.lease.Some? ==> z.state.keys == {})
            && |z.state.retired| <= MAX_RETIRED
    decreases |events|
  {
    if events != [] {
      TrackedUnlessLost(w.state, events[0]);
      HandedOverStep(w.state, events[0], now);
      NextInv(w, events[0], now);
      LeaseMeansHandover(Next(w, events[0]), events[1..], Clock(events[0], now));
    }
  }
}
