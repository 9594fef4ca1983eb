/**
 The gate object with its mutable fields, each entry point proved equal to the
 state machine in `InputWriter`. The lock is held over each entry point, so a
 method is one atomic step; clock readings and environment faults are arguments.
 */
module InputWriterGate {
  import opened Wrappers
  import opened PendingRecord
  import opened Recency
  import opened Sets
  import opened InputWriter
  import Replies = InputWriterReplies
  import Safety = InputWriterSafety

  /** What outlives one gate object: the pending file, the socket path and the X server's keys. */
  class Machine {
    var file: PendingFile
    var socket: bool
    var native: Native

    constructor (file: PendingFile, socket: bool, native: Native)
      ensures this.file == file && this.socket == socket && this.native == native
    {
      this.file, this.socket, this.native := file, socket, native;
    }

    method SendKeyUp(key: int)
      modifies this`native
      ensures native == Native(old(native).pressed - {key}, false)
    {
      native := Native(native.pressed - {key}, false);
    }

    method Sync()
      modifies this`native
      ensures native == Native(old(native).pressed, true)
    {
      native := native.(settled := true);
    }
  }

  lemma {:induction false} SmallestNext(keys: set<int>, count: nat)
    requires keys - Smallest(keys, count) != {}
    ensures Smallest(keys, count + 1) == Smallest(keys, count) + {Least(keys - Smallest(keys, count))}
    decreases count
  {
    if count == 0 {
      assert keys - Smallest(keys, 0) == keys;
      assert Smallest(keys, 1) == {Least(keys)} + Smallest(keys - {Least(keys)}, 0);
    } else {
      assert keys != {} by {
        var k := Pick(keys - Smallest(keys, count));
      }
      var rest := keys - {Least(keys)};
      assert keys - Smallest(keys, count) == rest - Smallest(rest, count - 1);
      SmallestNext(rest, count - 1);
    }
  }

  class Gate {
    const machine: Machine
    var lease: Option<Lease>
    var retired: seq<string>
    var keys: set<int>
    var closed: bool
    ghost var history: seq<string>

    ghost function View(): State
      reads this, machine
    {
      State(lease, retired, history, keys, closed, machine.socket, machine.file, machine.native)
    }

    /** What every gate keeps, whatever is asked of it. */
    ghost predicate Safe(now: real)
      reads this, machine
    {
      Safety.Inv(View(), now)
    }

    constructor (machine: Machine, lease: Option<Lease>)
      ensures this.machine == machine
      ensures View() == State(lease, [], [], {}, false, machine.socket, machine.file, machine.native)
    {
      this.machine := machine;
      this.lease := lease;
      retired, keys, closed := [], {}, false;
      history := [];
    }

    /** The program's constructor; null stands for the exception that leaves no gate. */
    static method Open(machine: Machine, clock: real, setup: Setup) returns (gate: Gate?)
      modifies machine`socket
      ensures gate == null <==> Start(machine.file, old(machine.socket), machine.native, clock, setup).0.None?
      ensures gate != null ==> fresh(gate) && gate.machine == machine && gate.Safe(clock)
      ensures Start(machine.file, old(machine.socket), machine.native, clock, setup)
              == (if gate == null then None else Some(gate.View()), machine.socket)
    {
      var restored: Option<Lease> := None;
      if machine.file.Present? {
        if !machine.file.trusted || |machine.file.text| > 1024 {
          return null;
        }
        var record := Read(machine.file.text);
        if record.None? {
          return null;
        }
        restored := Some(Lease(record.value.admission, clock, Some(record.value.effect), true));
      }
      if machine.socket || setup.BindFails? {
        return null;
      }
      machine.socket := true;
      if setup.LaterFails? {
        return null;
      }
      gate := new Gate(machine, restored);
      Safety.StartInv(machine.file, old(machine.socket), machine.native, clock, setup);
    }

    method RetireId(id: string)
      modifies this
      ensures View() == Retire(old(View()), id)
    {
      retired := Without(retired, id);
      retired := retired + [id];
      if |retired| > MAX_RETIRED {
        retired := retired[1..];
      }
      history := history + [id];
    }

    method CurrentLease(clock: real) returns (l: Option<Lease>)
      modifies this
      ensures View() == Active(old(View()), clock)
      ensures l == lease
    {
      if lease.Some? && (clock >= lease.value.expires || lease.value.releaseRequested) {
        RetireId(lease.value.id);
        if lease.value.pending.None? {
          lease := None;
        }
      }
      l := lease;
    }

    /** The tests on a message that need no clock. */
    method Takes(m: Message) returns (ok: bool)
      ensures ok == (!closed && WellFormed(View(), m))
    {
      if closed || m.NotText? || m.length > MAX_MESSAGE || m.command in ["r", "_arg_resize", "s"] {
        return false;
      }
      if m.command == "kd" || m.command == "ku" {
        if m.fields != 2 || m.keyLength > MAX_KEY_TEXT || m.key.None? {
          return false;
        }
        var key := m.key.value;
        if !(0 <= key <= 0xffff_ffff) || (m.command == "kd" && key !in keys && |keys| >= MAX_KEYS) {
          return false;
        }
      }
      return true;
    }

    /** The native handler and the bookkeeping of keys behind it. */
    method Pass(m: Message, fault: HandlerFault)
      requires WellFormed(View(), m)
      modifies this`keys, machine`native
      ensures View() == Passed(old(View()), m, fault)
    {
      if fault.Returns? || fault.delivered {
        machine.native := Deliver(machine.native, m);
      }
      if fault.Returns? {
        if m.command == "kd" {
          keys := keys + {m.key.value};
        } else if m.command == "ku" {
          keys := keys - {m.key.value};
        } else if m.command == "kr" {
          keys := {};
        }
      }
    }

    method OnMessage(m: Message, clock: real, fault: HandlerFault) returns (forwarded: bool)
      modifies this, machine
      ensures View() == Human(old(View()), m, clock, fault)
      ensures forwarded == Forwards(old(View()), m, clock)
      ensures forwarded <==> !old(closed) && Replies.Acceptable(old(keys), m)
                             && (Replies.Free(old(View()), clock) || m.command == "pong")
      ensures forall now | old(Safe(now)) && now <= clock :: Safe(clock)
    {
      Safety.HumanKeeps(View(), m, clock, fault);
      Replies.HumanPassesExactly(View(), m, clock, fault, 0);
      var taken := Takes(m);
      forwarded := false;
      if taken {
        var current := CurrentLease(clock);
        forwarded := current.None? || m.command == "pong";
        if forwarded {
          Pass(m, fault);
        }
      }
    }

    method BeginCommand(id: string, effect: string, t: Ticks, io: Io) returns (ok: bool)
      modifies this, machine
      ensures (View(), ok) == BeginEffect(old(View()), id, effect, t, io)
    {
      if !ValidEffect(effect) {
        return false;
      }
      if lease.None? || lease.value.id != id || lease.value.releaseRequested || t.check >= lease.value.expires {
        return false;
      }
      if lease.value.pending.Some? && lease.value.pending.value != effect {
        return false;
      }
      if lease.value.pending.None? {
        if machine.file.Present? || io.file.OpenFails? {
          return false;
        }
        var text := Write(Record(id, effect));
        if io.file.WriteFails? {
          machine.file := Present(true, if io.file.length < |text| then text[..io.file.length] else text);
          return false;
        }
        machine.file := Present(true, text);
        lease := Some(lease.value.(pending := Some(effect)));
      }
      return true;
    }

    method SettleCommand(id: string, effect: string, io: Io) returns (ok: bool)
      modifies this, machine
      ensures (View(), ok) == SettleEffect(old(View()), id, effect, io)
    {
      if !ValidEffect(effect) {
        return false;
      }
      if lease.Some? {
        if lease.value.id != id || (lease.value.pending.Some? && lease.value.pending.value != effect) {
          return false;
        }
        if lease.value.pending.Some? {
          if machine.file.Absent? || io.file.UnlinkFails? {
            return false;
          }
          machine.file := Absent;
        }
        lease := Some(lease.value.(pending := None));
      }
      return true;
    }

    /** Sends the key-ups in ascending order; `ok` when none of the calls raised. */
    method ReleaseKeys(io: NativeIo) returns (ok: bool)
      modifies machine`native
      ensures ok == !(io.KeyUpFails? && keys != {})
      ensures machine.native == Native(
        old(machine.native).pressed - (if ok then keys else Smallest(keys, io.sent)),
        old(machine.native).settled && (keys == {} || (!ok && io.sent == 0)))
    {
      var rest, sent := keys, 0;
      while rest != {} && !(io.KeyUpFails? && sent == io.sent)
        invariant Smallest(keys, sent) <= keys && rest == keys - Smallest(keys, sent)
        invariant io.KeyUpFails? ==> sent <= io.sent
        invariant if keys == {} then sent == 0 else rest == {} ==> sent > 0
        invariant machine.native.pressed == old(machine.native).pressed - Smallest(keys, sent)
        invariant machine.native.settled == (old(machine.native).settled && sent == 0)
        decreases rest
      {
        var key := Least(rest);
        SmallestNext(keys, sent);
        machine.SendKeyUp(key);
        rest, sent := rest - {key}, sent + 1;
      }
      if rest == {} {
        assert Smallest(keys, sent) == keys;
        if io.KeyUpFails? { SmallestGrows(keys, sent, io.sent); }
      }
      return !(io.KeyUpFails? && keys != {});
    }

    method AcquireCommand(id: string, duration: Option<int>, t: Ticks, io: Io) returns (ok: bool)
      modifies this, machine
      ensures (View(), ok) == AcquireLease(old(View()), id, duration, t, io)
    {
      if duration.None? || !(2000 <= duration.value <= 30000) {
        return false;
      }
      if id in retired || (lease.Some? && lease.value.id != id) {
        return false;
      }
      if lease.None? {
        if io.uinput {
          return false;
        }
        var deadline := t.grant + duration.value as real / 1000.0;
        var released := ReleaseKeys(io.native);
        if !released {
          return false;
        }
        keys := {};
        if io.native.PointerFails? || io.native.SyncBarrierFails? {
          return false;
        }
        machine.Sync();
        if t.late >= deadline {
          RetireId(id);
          return false;
        }
        lease := Some(Lease(id, deadline, None, false));
      }
      return true;
    }

    /** The branch of the command; `ok` when it raised nothing. */
    method Branch(q: Request, t: Ticks, io: Io) returns (ok: bool)
      modifies this, machine
      ensures (View(), ok) == Dispatch(old(View()), q, t, io)
    {
      ok := true;
      match q.verb {
        case Release =>
          RetireId(q.admission);
          if lease.Some? && lease.value.id == q.admission {
            lease := Some(lease.value.(releaseRequested := true));
          }
        case Begin => ok := BeginCommand(q.admission, q.effect, t, io);
        case Settle => ok := SettleCommand(q.admission, q.effect, io);
        case Acquire => ok := AcquireCommand(q.admission, q.duration, t, io);
        case Check =>
        case Unknown => ok := false;
      }
    }

    method HandleCommand(q: Request, t: Ticks, io: Io) returns (r: Outcome)
      modifies this, machine
      ensures (View(), r) == Command(old(View()), q, t, io)
      ensures forall now | old(Safe(now)) && Safety.Timely(Safety.Call(q, t, io), now) ::
                Safe(t.reply) && Replies.Exactly(old(View()), q, t, io, View(), r)
    {
      Safety.CommandKeeps(View(), q, t, io);
      Replies.RepliesAlways(View(), q, t, io);
      r := Raised;
      if q.wellFormed && ValidAdmission(q.admission) && !io.lockTimesOut && !closed {
        var current := CurrentLease(t.enter);
        var ok := Branch(q, t, io);
        if ok {
          current := CurrentLease(t.exit);
          var mine := current.Some? && current.value.id == q.admission;
          r := Reply(mine && !current.value.releaseRequested && t.reply < current.value.expires,
                     mine, if mine then current.value.pending else None);
        }
      }
    }

    /** `kept`: the socket path could not be removed. */
    method CloseGate(kept: bool)
      modifies this, machine`socket
      ensures View() == Close(old(View()), kept)
      ensures forall now | old(Safe(now)) :: Safe(now)
    {
      closed := true;
      lease := None;
      machine.socket := machine.socket && kept;
    }
  }
}
