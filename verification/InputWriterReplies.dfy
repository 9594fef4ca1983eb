/**
 What each entry point of the gate achieves, from the lease and the environment alone: when human input
 passes, when each command replies, what it answers, and what it leaves behind.
 */
module InputWriterReplies {
  import opened Wrappers
  import opened PendingRecord
  import opened Recency
  import opened InputWriter
  import opened InputWriterSafety

  /** The lease is neither expired nor given back. */
  predicate InForce(l: Lease, t: real) {
    t < l.expires && !l.releaseRequested
  }

  predicate Names(s: State, id: string) {
    s.lease.Some? && s.lease.value.id == id
  }

  /** No lease blocks human input or a grant: a lease out of force blocks only while an effect is pending. */
  predicate Free(s: State, t: real) {
    s.lease.Some? ==> !InForce(s.lease.value, t) && s.lease.value.pending.None?
  }

  /** The ids that an entry point at `t` remembers: a lease out of force is retired first. */
  function Remembered(s: State, t: real): seq<string> {
    Recent(s.history + (if s.lease.Some? && !InForce(s.lease.value, t) then [s.lease.value.id] else []), 128)
  }

  /** What the outside sees of the lease `id` in `z` at `t`. */
  ghost predicate Told(z: State, id: string, t: real, r: Outcome) {
    && r.Reply?
    && (r.active <==> Names(z, id) && InForce(z.lease.value, t))
    && (r.held <==> Names(z, id))
    && r.pending == if Names(z, id) then z.lease.value.pending else None
  }

  /** The lease `was` at the end of a command that leaves it alone: gone once it is out of force with nothing pending. */
  predicate LeftAlone(was: Option<Lease>, now: Option<Lease>, t: real) {
    if was.Some? && !InForce(was.value, t) && was.value.pending.None? then now.None? else now == was
  }

  lemma ActiveLeaves(s: State, t: real)
    ensures Free(s, t) <==> Active(s, t).lease.None?
    ensures !Free(s, t) ==> Active(s, t).lease == s.lease
    ensures LeftAlone(s.lease, Active(s, t).lease, t)
    ensures var a := Active(s, t);
            a.keys == s.keys && a.file == s.file && a.native == s.native && a.closed == s.closed && a.socket == s.socket
    ensures s.retired == Recent(s.history, MAX_RETIRED) ==>
              Active(s, t).retired == Remembered(s, t) == Recent(Active(s, t).history, 128)
    ensures s.history <= Active(s, t).history
  {
    if s.lease.Some? && !InForce(s.lease.value, t) {
      RecentStep(s.history, s.lease.value.id, MAX_RETIRED);
    } else {
      assert s.history + [] == s.history;
    }
  }

  // ---------------------------------------------------------------- human input

  /** A message that the gate takes whatever the lease: no geometry, and a key event only with one key of 32 bits,
      a new one only while fewer than 256 are down. */
  predicate Acceptable(keys: set<int>, m: Message) {
    && m.Text? && m.length <= 131072
    && m.command != "r" && m.command != "_arg_resize" && m.command != "s"
    && (m.command == "kd" || m.command == "ku" ==>
          && m.fields == 2 && m.keyLength <= 16 && m.key.Some? && 0 <= m.key.value < 0x1_0000_0000
          && (m.command == "ku" || m.key.value in keys || |keys| < 256))
  }

  /** Human input passes exactly when it is acceptable and no lease blocks it, and then the keys follow it:
      the X server's when the handler delivered it, the gate's own when the handler returned. */
  lemma HumanPassesExactly(s: State, m: Message, at: real, fault: HandlerFault, key: int)
    ensures Forwards(s, m, at) <==> !s.closed && Acceptable(s.keys, m) && (Free(s, at) || m.command == "pong")
    ensures var z := Human(s, m, at, fault);
            && z.closed == s.closed && z.socket == s.socket && z.file == s.file
            && (key in z.keys <==>
                  if Forwards(s, m, at) && fault.Returns?
                  then (key in s.keys && m.command != "kr" && !(m.command == "ku" && m.key == Some(key)))
                       || (m.command == "kd" && m.key == Some(key))
                  else key in s.keys)
            && (key in z.native.pressed <==>
                  if Forwards(s, m, at) && (fault.Returns? || fault.delivered)
                  then (key in s.native.pressed && m.command != "kr" && !(m.command == "ku" && m.key == Some(key)))
                       || (m.command == "kd" && m.key == Some(key))
                  else key in s.native.pressed)
            && (z.native.settled <==>
                  s.native.settled && !(Forwards(s, m, at) && (fault.Returns? || fault.delivered)
                                        && m.command in ["kd", "ku", "kr"]))
            && (if !s.closed && Acceptable(s.keys, m) then LeftAlone(s.lease, z.lease, at) else z.lease == s.lease)
  {
    ActiveLeaves(s, at);
  }

  // ---------------------------------------------------------------- commands

  predicate Spells(text: string, characters: string, least: nat, most: nat) {
    least <= |text| <= most && forall i | 0 <= i < |text| :: text[i] in characters
  }

  /** A command that reaches its branch. */
  predicate Comes(s: State, q: Request, io: Io) {
    q.wellFormed && Spells(q.admission, "0123456789abcdef-", 32, 36) && !io.lockTimesOut && !s.closed
  }

  function Deadline(q: Request, t: Ticks): real
    requires q.duration.Some?
  {
    t.grant + q.duration.value as real / 1000.0
  }

  /** An `acquire` of a fitting duration and of an id that is not remembered. */
  predicate MayAcquire(s: State, q: Request, t: Ticks) {
    && q.duration.Some? && 2000 <= q.duration.value <= 30000
    && q.admission !in Remembered(s, t.enter)
  }

  /** It hands over: no lease is there, and it releases the keys. */
  predicate HandsOver(s: State, q: Request, t: Ticks, io: Io) {
    q.verb == Acquire && MayAcquire(s, q, t) && Free(s, t.enter) && !io.uinput
  }

  /** The keys that are up when a key-up raises: the first `sent` of them in ascending order. */
  ghost predicate Ascending(up: set<int>, keys: set<int>, sent: nat) {
    && up <= keys && |up| <= sent && (|up| == sent || up == keys)
    && forall j, k | j in up && k in keys - up :: j < k
  }

  /** The keys behind a refusal: some are up already, or all of them and the gate knows of none any more. */
  ghost predicate Interrupted(s: State, q: Request, t: Ticks, io: Io, z: State) {
    if !HandsOver(s, q, t, io) then z.keys == s.keys && z.native == s.native
    else if io.native.KeyUpFails? && s.keys != {} then
      && z.keys == s.keys && z.native.settled == (s.native.settled && io.native.sent == 0)
      && exists up :: Ascending(up, s.keys, io.native.sent) && z.native.pressed == s.native.pressed - up
    else
      && z.keys == {} && z.native.pressed == s.native.pressed - s.keys
      && (if io.native.PointerFails? || io.native.SyncBarrierFails? then z.native.settled == (s.native.settled && s.keys == {})
          else z.native.settled && q.admission in z.retired)
  }

  /** A `begin` of a lease in force that may record this effect, or has. */
  predicate MayBegin(s: State, q: Request, t: Ticks) {
    && Spells(q.effect, "0123456789abcdef", 32, 32)
    && Names(s, q.admission) && InForce(s.lease.value, t.check)
    && (s.lease.value.pending.Some? ==> s.lease.value.pending.value == q.effect)
  }

  /** It writes the pending file. */
  predicate Opens(s: State, q: Request, t: Ticks, io: Io) {
    q.verb == Begin && MayBegin(s, q, t) && s.lease.value.pending.None? && s.file.Absent? && !io.file.OpenFails?
  }

  /** The file behind a refusal: as it was, or holding as much of the record as was written before the failure. */
  predicate Torn(s: State, q: Request, t: Ticks, io: Io, file: PendingFile) {
    if Opens(s, q, t, io) && io.file.WriteFails?
    then file.Present? && file.trusted && file.text <= Write(Record(q.admission, q.effect))
         && (|file.text| == io.file.length || file.text == Write(Record(q.admission, q.effect))) && |file.text| <= io.file.length
    else file == s.file
  }

  /** What each command needs to reply. */
  predicate Serves(s: State, q: Request, t: Ticks, io: Io) {
    match q.verb
    case Release => true
    case Check => true
    case Unknown => false
    case Begin => MayBegin(s, q, t) && (s.lease.value.pending.Some? || (Opens(s, q, t, io) && !io.file.WriteFails?))
    case Settle =>
      && Spells(q.effect, "0123456789abcdef", 32, 32)
      && (Free(s, t.enter)
          || (Names(s, q.admission)
              && (s.lease.value.pending.Some? ==> s.lease.value.pending.value == q.effect && !io.file.UnlinkFails?)))
    case Acquire =>
      && MayAcquire(s, q, t)
      && (if Free(s, t.enter)
          then !io.uinput && (io.native.NativeWorks? || (io.native.KeyUpFails? && s.keys == {})) && t.late < Deadline(q, t)
          else Names(s, q.admission))
  }

  /** The lease that the command itself leaves. */
  function Wanted(s: State, q: Request, t: Ticks): Option<Lease> {
    match q.verb
    case Release =>
      if Names(s, q.admission) then Some(s.lease.value.(releaseRequested := true)) else s.lease
    case Begin =>
      if Names(s, q.admission) then Some(s.lease.value.(pending := Some(q.effect))) else s.lease
    case Settle =>
      if Names(s, q.admission) then Some(s.lease.value.(pending := None)) else s.lease
    case Acquire =>
      if Free(s, t.enter) && q.duration.Some? then Some(Lease(q.admission, Deadline(q, t), None, false)) else s.lease
    case _ => s.lease
  }

  /** The file, the keys and the remembered ids behind a reply. */
  ghost predicate Kept(s: State, q: Request, t: Ticks, z: State) {
    && z.closed == s.closed && z.socket == s.socket
    && z.file == (if q.verb == Begin then Recorded(q.admission, q.effect)
                  else if q.verb == Settle && Names(s, q.admission) && s.lease.value.pending.Some? then Absent
                  else s.file)
    && (if q.verb == Acquire && Free(s, t.enter)
        then z.keys == {} && z.native == Native(s.native.pressed - s.keys, true)
        else z.keys == s.keys && z.native == s.native)
    && (q.verb == Release ==> q.admission in z.retired)
  }

  /** The state behind a reply. */
  ghost predicate Served(s: State, q: Request, t: Ticks, z: State) {
    LeftAlone(Wanted(s, q, t), z.lease, t.exit) && Kept(s, q, t, z)
  }

  /** The state behind a refusal: a `begin` may leave a torn file, an `acquire` keys that are up already. */
  ghost predicate Refused(s: State, q: Request, t: Ticks, io: Io, z: State) {
    && LeftAlone(s.lease, z.lease, t.enter)
    && z.closed == s.closed && z.socket == s.socket
    && Torn(s, q, t, io, z.file)
    && Interrupted(s, q, t, io, z)
  }

  lemma SpellsHex(text: string)
    ensures Spells(text, "0123456789abcdef-", 32, 36) <==> ValidAdmission(text)
    ensures Spells(text, "0123456789abcdef", 32, 32) <==> ValidEffect(text)
  {
    assert forall c: char :: c in "0123456789abcdef" <==> HexChar(c) by {
      forall c: char ensures c in "0123456789abcdef" <==> HexChar(c) { HexIn(c); }
    }
    assert "0123456789abcdef-" == "0123456789abcdef" + "-";
  }

  lemma HexIn(c: char)
    ensures c in "0123456789abcdef" <==> HexChar(c)
  {
    var digits := "0123456789abcdef";
    if HexChar(c) {
      var i := if c <= '9' then c as int - '0' as int else c as int - 'a' as int + 10;
      assert digits[i] == c;
    }
  }

  ghost predicate Branched(s: State, q: Request, t: Ticks, io: Io, d: State, ok: bool) {
    && ok == Serves(s, q, t, io)
    && (if ok then (d.lease == Wanted(s, q, t) || LeftAlone(Wanted(s, q, t), d.lease, t.enter)) && Kept(s, q, t, d)
        else Refused(s, q, t, io, d))
  }

  lemma BranchedRelease(s: State, q: Request, t: Ticks, io: Io, now: real)
    requires Inv(s, now) && Timely(Call(q, t, io), now) && q.verb == Release
    ensures Branched(s, q, t, io, Dispatch(Active(s, t.enter), q, t, io).0, Dispatch(Active(s, t.enter), q, t, io).1)
  {
    ActiveLeaves(s, t.enter);
    var a := Active(s, t.enter);
    RememberedLast(a.retired, q.admission);
  }

  lemma RememberedLast(items: seq<string>, id: string)
    ensures id in Remember(items, id, MAX_RETIRED)
  {
    var longer := Without(items, id) + [id];
    assert longer[|longer| - 1] == id;
  }

  lemma BranchedBegin(s: State, q: Request, t: Ticks, io: Io, now: real)
    requires Inv(s, now) && Timely(Call(q, t, io), now) && q.verb == Begin
    ensures Branched(s, q, t, io, Dispatch(Active(s, t.enter), q, t, io).0, Dispatch(Active(s, t.enter), q, t, io).1)
  {
    ActiveLeaves(s, t.enter);
    SpellsHex(q.effect);
  }

  lemma BranchedSettle(s: State, q: Request, t: Ticks, io: Io, now: real)
    requires Inv(s, now) && Timely(Call(q, t, io), now) && q.verb == Settle
    ensures Branched(s, q, t, io, Dispatch(Active(s, t.enter), q, t, io).0, Dispatch(Active(s, t.enter), q, t, io).1)
  {
    ActiveLeaves(s, t.enter);
    SpellsHex(q.effect);
  }

  lemma {:induction false} SmallestAscends(keys: set<int>, count: nat)
    ensures Ascending(Smallest(keys, count), keys, count)
    decreases count
  {
    if count > 0 && keys != {} {
      var rest := keys - {Least(keys)};
      SmallestAscends(rest, count - 1);
      var up := Smallest(rest, count - 1);
      assert |{Least(keys)} + up| == 1 + |up|;
      forall j, k | j in {Least(keys)} + up && k in keys - ({Least(keys)} + up) ensures j < k {
        if j != Least(keys) {
          assert k in rest - up;
        }
      }
    }
  }

  /** The lease and the ids that a command finds behind its first look, and the rest as it was. */
  ghost predicate Looked(s: State, a: State, t: real) {
    && (Free(s, t) <==> a.lease.None?) && (!Free(s, t) ==> a.lease == s.lease) && LeftAlone(s.lease, a.lease, t)
    && a.retired == Remembered(s, t)
    && a.keys == s.keys && a.file == s.file && a.native == s.native && a.closed == s.closed && a.socket == s.socket
  }

  lemma AcquireHandsOver(s: State, a: State, q: Request, t: Ticks, io: Io)
    requires Looked(s, a, t.enter) && HandsOver(s, q, t, io)
    ensures var (d, ok) := AcquireLease(a, q.admission, q.duration, t, io); Branched(s, q, t, io, d, ok)
  {
    hide Remembered, Remember, LeftAlone;
    if io.native.KeyUpFails? {
      SmallestAscends(s.keys, io.native.sent);
    }
    RememberedLast(a.retired, q.admission);
    AloneFree(s, t.enter);
  }

  lemma AloneFree(s: State, t: real)
    requires Free(s, t)
    ensures LeftAlone(s.lease, None, t)
  {
  }

  lemma AcquireElse(s: State, a: State, q: Request, t: Ticks, io: Io)
    requires Looked(s, a, t.enter) && !HandsOver(s, q, t, io) && q.verb == Acquire
    ensures var (d, ok) := AcquireLease(a, q.admission, q.duration, t, io); Branched(s, q, t, io, d, ok)
  {
    hide Remembered, Remember, Smallest;
  }

  lemma BranchedAcquire(s: State, q: Request, t: Ticks, io: Io, now: real)
    requires Inv(s, now) && Timely(Call(q, t, io), now) && q.verb == Acquire
    ensures Branched(s, q, t, io, Dispatch(Active(s, t.enter), q, t, io).0, Dispatch(Active(s, t.enter), q, t, io).1)
  {
    hide Branched, AcquireLease, Remembered;
    ActiveLeaves(s, t.enter);
    if HandsOver(s, q, t, io) {
      AcquireHandsOver(s, Active(s, t.enter), q, t, io);
    } else {
      AcquireElse(s, Active(s, t.enter), q, t, io);
    }
  }

  ghost predicate Exactly(s: State, q: Request, t: Ticks, io: Io, z: State, r: Outcome) {
    && (r.Reply? <==> Comes(s, q, io) && Serves(s, q, t, io))
    && (if r.Reply? then Served(s, q, t, z) && Told(z, q.admission, t.reply, r)
        else if Comes(s, q, io) then Refused(s, q, t, io, z) else z == s)
  }

  /** A command replies exactly when it comes and is served; the reply tells how its lease stands, and what the
      command leaves behind is determined either way. */
  lemma RepliesExactly(s: State, q: Request, t: Ticks, io: Io, now: real)
    requires Inv(s, now) && Timely(Call(q, t, io), now)
    ensures Exactly(s, q, t, io, Command(s, q, t, io).0, Command(s, q, t, io).1)
  {
    SpellsHex(q.admission);
    if Admitted(s, q, io) {
      match q.verb {
        case Release => BranchedRelease(s, q, t, io, now);
        case Begin => BranchedBegin(s, q, t, io, now);
        case Settle => BranchedSettle(s, q, t, io, now);
        case Acquire => BranchedAcquire(s, q, t, io, now);
        case _ => ActiveLeaves(s, t.enter);
      }
      var (d, ok) := Dispatch(Active(s, t.enter), q, t, io);
      if ok {
        if q.verb == Release { StaysRemembered(s, q, t, io, now); }
        AtExit(s, q, t, io, d, ok);
      }
    }
  }

  lemma RepliesAlways(s: State, q: Request, t: Ticks, io: Io)
    ensures forall now | Inv(s, now) && Timely(Call(q, t, io), now) ::
              Exactly(s, q, t, io, Command(s, q, t, io).0, Command(s, q, t, io).1)
  {
    forall now | Inv(s, now) && Timely(Call(q, t, io), now)
      ensures Exactly(s, q, t, io, Command(s, q, t, io).0, Command(s, q, t, io).1)
    {
      RepliesExactly(s, q, t, io, now);
    }
  }

  /** A released id is still remembered when the second look retires another one. */
  lemma StaysRemembered(s: State, q: Request, t: Ticks, io: Io, now: real)
    requires Inv(s, now) && Timely(Call(q, t, io), now) && q.verb == Release
    ensures q.admission in Active(Dispatch(Active(s, t.enter), q, t, io).0, t.exit).retired
  {
    hide Active, Recent, Distinct, Remember, LeftAlone, Free;
    ActiveLeaves(s, t.enter);
    var a := Active(s, t.enter);
    RecentStep(a.history, q.admission, MAX_RETIRED);
    var d := Dispatch(a, q, t, io).0;
    assert d.history == a.history + [q.admission];
    NextStays(d, a.history, q.admission, t.exit);
  }

  lemma NextStays(d: State, before: seq<string>, id: string, t: real)
    requires d.history == before + [id] && d.retired == Recent(d.history, MAX_RETIRED)
    ensures id in Active(d, t).retired
  {
    hide Active, Recent;
    ActiveLeaves(d, t);
    var other := if d.lease.Some? && !InForce(d.lease.value, t) then [d.lease.value.id] else [];
    assert Active(d, t).retired == Recent(d.history + other, MAX_RETIRED);
    if other == [] || other == [id] {
      RecentLast(before + other, id);
      assert d.history + other == (before + other) + [id];
    } else {
      assert other[..0] == [] && Distinct(other) == Without([], other[0]) + other;
      assert d.history + other == before + ([id] + other);
      RecentUntilPushedOut(before, id, other, MAX_RETIRED);
    }
  }

  lemma RecentLast(before: seq<string>, id: string)
    ensures id in Recent(before + [id], MAX_RETIRED)
  {
    RecentUntilPushedOut(before, id, [], MAX_RETIRED);
    assert before + ([id] + []) == before + [id];
  }

  /** The second look at the lease, behind the branch. */
  lemma AtExit(s: State, q: Request, t: Ticks, io: Io, d: State, ok: bool)
    requires t.enter <= t.exit && Branched(s, q, t, io, d, ok) && ok
    requires q.verb == Release ==> q.admission in Active(d, t.exit).retired
    ensures Served(s, q, t, Active(d, t.exit))
  {
    ActiveLeaves(d, t.exit);
  }

  // ---------------------------------------------------------------- what a release achieves

  /** A release that comes takes effect at once: its own lease is gone and human input passes, or, behind a pending
      effect, it is held as given back. The lease of another id is left alone while it is in force. */
  lemma ReleaseEnds(s: State, q: Request, t: Ticks, io: Io, now: real, m: Message, at: real)
    requires Inv(s, now) && Timely(Call(q, t, io), now)
    requires q.verb == Release && Comes(s, q, io)
    ensures var (z, r) := Command(s, q, t, io);
            && r.Reply? && !r.active && q.admission in z.retired
            && (Names(s, q.admission) && s.lease.value.pending.None? ==>
                  z.lease.None? && !r.held && (Acceptable(s.keys, m) ==> Forwards(z, m, at)))
            && (Names(s, q.admission) && s.lease.value.pending.Some? ==>
                  z.lease == Some(s.lease.value.(releaseRequested := true)) && r.held)
            && (s.lease.Some? && !Names(s, q.admission) && InForce(s.lease.value, t.exit) ==> z.lease == s.lease)
            && (s.lease.None? ==> z.lease.None?)
  {
    RepliesExactly(s, q, t, io, now);
    var z := Command(s, q, t, io).0;
    HumanPassesExactly(z, m, at, Returns, 0);
  }

  /** No process dies and none starts. */
  predicate OneLife(events: seq<Event>) {
    forall e | e in events :: !e.Restart? && !e.Killed? && !e.Died?
  }

  lemma DispatchRemembers(a: State, q: Request, t: Ticks, io: Io)
    ensures a.history <= Dispatch(a, q, t, io).0.history
  {
  }

  lemma StepRemembers(s: State, ev: Event)
    requires !ev.Restart? && !ev.Killed? && !ev.Died?
    ensures Next(Up(s), ev).Up? && s.history <= Next(Up(s), ev).state.history
  {
    hide Dispatch, Active, Remembered, Recent, LeftAlone, Free;
    match ev {
      case HumanInput(m, at, fault) => ActiveLeaves(s, at);
      case Call(q, t, io) =>
        ActiveLeaves(s, t.enter);
        DispatchRemembers(Active(s, t.enter), q, t, io);
        ActiveLeaves(Dispatch(Active(s, t.enter), q, t, io).0, t.exit);
      case _ =>
    }
  }

  lemma {:induction false} RunRemembers(s: State, events: seq<Event>, now: real)
    requires Inv(s, now) && TimelyRun(events, now) && OneLife(events)
    ensures var w := Run(Up(s), events);
            w.Up? && s.history <= w.state.history && w.state.retired == Recent(w.state.history, MAX_RETIRED)
    decreases |events|
  {
    if events != [] {
      assert events[0] in events;
      StepRemembers(s, events[0]);
      NextInv(Up(s), events[0], now);
      RunRemembers(Next(Up(s), events[0]).state, events[1..], Clock(events[0], now));
    }
  }

  lemma {:induction false} LastNamed(named: seq<string>, id: string) returns (before: seq<string>, after: seq<string>)
    requires id in named
    ensures named == before + ([id] + after) && id !in after
  {
    var front, last := named[..|named| - 1], named[|named| - 1];
    assert named == front + [last];
    if last == id {
      before, after := front, [];
    } else {
      before, after := LastNamed(front, id);
      assert before + ([id] + (after + [last])) == (before + ([id] + after)) + [last];
      after := after + [last];
    }
  }

  /** A released id is not granted again by the same process, whatever happens in between, until 128 other
      distinct ids were retired behind the release. */
  lemma ReleasedStaysOut(s: State, q: Request, t: Ticks, io: Io, now: real, events: seq<Event>,
                         again: Request, later: Ticks, io': Io)
    requires Inv(s, now) && Timely(Call(q, t, io), now) && q.verb == Release && Comes(s, q, io)
    requires TimelyRun(events, t.reply) && OneLife(events)
    requires again.verb == Acquire && again.admission == q.admission
    ensures var w := Run(Up(Command(s, q, t, io).0), events);
            && w.Up? && s.history <= w.state.history
            && (|Distinct(Active(w.state, later.enter).history[|s.history|..])| <= 128 ==> !Replied(w, Call(again, later, io')))
  {
    hide Command, Comes, Replied, Active, Distinct, Recent, TimelyRun, OneLife;
    var z := Command(s, q, t, io).0;
    CommandInv(s, q, t, io, now);
    ReleaseNames(s, q, t, io);
    RunRemembers(z, events, t.reply);
    var w := Run(Up(z), events).state;
    var i :| |s.history| <= i < |z.history| && z.history[i] == q.admission;
    assert w.history[i] == q.admission;
    ActiveLeaves(w, later.enter);
    if |Distinct(Active(w, later.enter).history[|s.history|..])| <= 128 {
      NamedSince(w, |s.history|, i, again, later, io');
    }
  }

  /** An id that was named at `i` is refused while at most 128 distinct ids were named from `from` on. */
  lemma NamedSince(w: State, from: nat, i: nat, again: Request, later: Ticks, io: Io)
    requires w.retired == Recent(w.history, MAX_RETIRED)
    requires from <= i < |w.history| && w.history[i] == again.admission && again.verb == Acquire
    requires w.history <= Active(w, later.enter).history
    requires |Distinct(Active(w, later.enter).history[from..])| <= 128
    ensures !Replied(Up(w), Call(again, later, io))
  {
    hide Active, Distinct, Recent, Replied;
    ActiveLeaves(w, later.enter);
    var h := Active(w, later.enter).history;
    var since := h[from..];
    assert since[i - from] == again.admission;
    var before, after := LastNamed(since, again.admission);
    FewerBehind(before, again.admission, after);
    assert h == (h[..from] + before) + ([again.admission] + after);
    NoEarlyRegrant(w, again, later, io, h[..from] + before, after);
  }

  lemma FewerBehind(before: seq<string>, id: string, after: seq<string>)
    requires id !in after
    ensures |Distinct(after)| < |Distinct(before + ([id] + after))|
  {
    var front := DistinctEndsWith(before, [id] + after);
    DistinctFrom(id, after);
  }

  /** A release names its id in the history. */
  lemma ReleaseNames(s: State, q: Request, t: Ticks, io: Io)
    requires q.verb == Release && Comes(s, q, io)
    ensures var z := Command(s, q, t, io).0;
            s.history <= z.history && q.admission in z.history[|s.history|..]
  {
    SpellsHex(q.admission);
    ActiveLeaves(s, t.enter);
    var a := Active(s, t.enter);
    var d := Dispatch(a, q, t, io).0;
    assert d.history == a.history + [q.admission];
    ActiveLeaves(d, t.exit);
    var z := Command(s, q, t, io).0;
    assert z.history[|s.history|..][|a.history| - |s.history|] == q.admission;
  }

  // ---------------------------------------------------------------- close and start

  /** A closed gate answers nothing more in its process, whatever comes. */
  lemma {:induction false} ClosedForGood(s: State, kept: bool, events: seq<Event>, ev: Event)
    requires OneLife(events)
    ensures var w := Run(Up(Close(s, kept)), events);
            && w.Up? && w.state.closed && w.state.lease.None?
            && !Replied(w, ev) && !(ev.HumanInput? && Forwards(w.state, ev.message, ev.at))
  {
    ClosedRun(Close(s, kept), events);
  }

  lemma {:induction false} ClosedRun(s: State, events: seq<Event>)
    requires s.closed && s.lease.None? && OneLife(events)
    ensures var w := Run(Up(s), events); w.Up? && w.state.closed && w.state.lease.None?
    decreases |events|
  {
    if events != [] {
      assert events[0] in events;
      ClosedRun(Next(Up(s), events[0]).state, events[1..]);
    }
  }

  /** A close takes the socket path away unless the removal failed, so a working start over a fine file then comes up;
      where the path was left it does not. */
  lemma CloseFreesThePath(s: State, kept: bool, at: real, native: Native)
    requires s.socket && (s.file.Absent? || (s.file.trusted && exists r: Record :: Valid(r) && Write(r) == s.file.text))
    ensures var z := Close(s, kept);
            && z.file == s.file && z.native == s.native
            && (Start(z.file, z.socket, native, at, SetupWorks).0.Some? <==> !kept)
  {
    StartsExactly(s.file, kept, native, at, SetupWorks);
  }

  /** A close over a path that is gone already leaves none. */
  lemma CloseAddsNoPath(s: State, kept: bool)
    ensures Close(s, kept).socket ==> s.socket && kept
  {
  }

  /** A start comes up exactly over no pending file, or over a trusted one that spells one valid record, and then
      with no lease, or with that record's one given back. */
  lemma StartsExactly(file: PendingFile, socket: bool, native: Native, t: real, setup: Setup)
    ensures var (s, path) := Start(file, socket, native, t, setup);
            var fine := file.Absent? || (file.trusted && exists r: Record :: Valid(r) && Write(r) == file.text);
            && (s.Some? <==> fine && !socket && setup.SetupWorks?)
            && (path <==> socket || (fine && !setup.BindFails?))
            && (s.Some? ==>
                  var z := s.value;
                  && z == State(z.lease, [], [], {}, false, true, file, native)
                  && (file.Absent? <==> z.lease.None?)
                  && (file.Present? ==>
                        && z.lease == Some(Lease(z.lease.value.id, t, z.lease.value.pending, true)) && z.lease.value.pending.Some?
                        && file.text == Write(Record(z.lease.value.id, z.lease.value.pending.value))))
  {
    if file.Present? {
      if r: Record :| Valid(r) && Write(r) == file.text {
        ReadBack(r);
      }
    }
  }
}
