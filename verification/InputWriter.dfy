/**
 The input writer gate as a state machine: one state, one function per entry
 point, and the environment (clock readings, file errors, native errors, a
 process that dies) as arguments. `InputWriterGate` is proved equal to these
 functions; `InputWriterSafety` proves what holds over every run of them.
 */
module InputWriter {
  import opened Wrappers
  import opened PendingRecord
  import opened Recency
  import opened Sets

  const MAX_RETIRED := 128
  const MAX_KEYS := 256
  const MAX_MESSAGE := 131072
  const MAX_KEY_TEXT := 16

  datatype Lease = Lease(id: string, expires: real, pending: Option<string>, releaseRequested: bool)

  /** What the `.pending` path names. `trusted`: a private regular file of this user. */
  datatype PendingFile = Absent | Present(trusted: bool, text: string)

  /** The X11 side: keys held down there, and whether all sent key events passed the sync barrier. */
  datatype Native = Native(pressed: set<int>, settled: bool)

  /** `socket`: the path of the gate's socket exists.
      `history` lists every id ever retired by this process, oldest first; it is not program state. */
  datatype State = State(lease: Option<Lease>, retired: seq<string>, history: seq<string>,
                         keys: set<int>, closed: bool, socket: bool, file: PendingFile, native: Native)

  datatype Verb = Release | Begin | Settle | Acquire | Check | Unknown

  /** `wellFormed`: a dictionary without foreign fields. A missing or non-text
      identity is the empty text, which the same test refuses. */
  datatype Request = Request(wellFormed: bool, verb: Verb, admission: string, effect: string, duration: Option<int>)

  /** The clock readings of one command, in program order. */
  datatype Ticks = Ticks(enter: real, check: real, grant: real, late: real, exit: real, reply: real)

  /** `WriteFails`: the write, flush or sync raised after `length` characters were in the file. */
  datatype FileIo = Works | OpenFails | WriteFails(length: nat) | UnlinkFails
  /** `KeyUpFails`: a key-up call raised after `sent` of them were delivered. */
  datatype NativeIo = NativeWorks | KeyUpFails(sent: nat) | PointerFails | SyncBarrierFails

  datatype Io = Io(lockTimesOut: bool, uinput: bool, file: FileIo, native: NativeIo)

  /** A human message: `fields` and `keyLength` describe its comma-separated parts,
      `key` is the second one read as an integer. */
  datatype Message = NotText | Text(length: nat, command: string, fields: nat, keyLength: nat, key: Option<int>)

  /** The native handler may raise, before or after it delivered the message. */
  datatype HandlerFault = Returns | Raises(delivered: bool)

  datatype Outcome = Raised | Reply(active: bool, held: bool, pending: Option<string>)

  function Retire(s: State, id: string): State {
    s.(retired := Remember(s.retired, id, MAX_RETIRED), history := s.history + [id])
  }

  predicate Over(l: Lease, t: real) {
    t >= l.expires || l.releaseRequested
  }

  function Active(s: State, t: real): State {
    if s.lease.Some? && Over(s.lease.value, t) then
      var r := Retire(s, s.lease.value.id);
      if s.lease.value.pending.None? then r.(lease := None) else r
    else s
  }

  predicate KeyCommand(m: Message)
    requires m.Text?
  {
    m.command == "kd" || m.command == "ku"
  }

  predicate WellFormed(s: State, m: Message) {
    && m.Text? && m.length <= MAX_MESSAGE
    && m.command !in ["r", "_arg_resize", "s"]
    && (KeyCommand(m) ==>
          && m.fields == 2 && m.keyLength <= MAX_KEY_TEXT
          && m.key.Some? && 0 <= m.key.value <= 0xffff_ffff
          && !(m.command == "kd" && m.key.value !in s.keys && |s.keys| >= MAX_KEYS))
  }

  function KeysAfter(keys: set<int>, m: Message): set<int>
    requires m.Text? && (KeyCommand(m) ==> m.key.Some?)
  {
    if m.command == "kd" then keys + {m.key.value}
    else if m.command == "ku" then keys - {m.key.value}
    else if m.command == "kr" then {}
    else keys
  }

  function Deliver(n: Native, m: Message): Native
    requires m.Text? && (KeyCommand(m) ==> m.key.Some?)
  {
    Native(KeysAfter(n.pressed, m), n.settled && !KeyCommand(m) && m.command != "kr")
  }

  predicate Forwards(s: State, m: Message, t: real) {
    !s.closed && WellFormed(s, m) && (Active(s, t).lease.None? || m.command == "pong")
  }

  /** A forwarded message: a handler that raises leaves the gate's own keys as they were. */
  function Passed(a: State, m: Message, fault: HandlerFault): State
    requires m.Text? && (KeyCommand(m) ==> m.key.Some?)
  {
    match fault
    case Returns => a.(native := Deliver(a.native, m), keys := KeysAfter(a.keys, m))
    case Raises(true) => a.(native := Deliver(a.native, m))
    case Raises(false) => a
  }

  function Human(s: State, m: Message, t: real, fault: HandlerFault): State {
    if s.closed || !WellFormed(s, m) then s
    else
      var a := Active(s, t);
      if Forwards(s, m, t) then Passed(a, m, fault) else a
  }

  function BeginEffect(a: State, id: string, effect: string, t: Ticks, io: Io): (State, bool) {
    if !ValidEffect(effect) || a.lease.None? || a.lease.value.id != id || a.lease.value.releaseRequested
       || t.check >= a.lease.value.expires || (a.lease.value.pending.Some? && a.lease.value.pending.value != effect) then
      (a, false)
    else if a.lease.value.pending.Some? then (a, true)
    else
      var text := Write(Record(id, effect));
      if a.file.Present? || io.file.OpenFails? then (a, false)
      else if io.file.WriteFails? then
        (a.(file := Present(true, if io.file.length < |text| then text[..io.file.length] else text)), false)
      else (a.(file := Present(true, text), lease := Some(a.lease.value.(pending := Some(effect)))), true)
  }

  function SettleEffect(a: State, id: string, effect: string, io: Io): (State, bool) {
    if !ValidEffect(effect) then (a, false)
    else if a.lease.None? then (a, true)
    else if a.lease.value.id != id || (a.lease.value.pending.Some? && a.lease.value.pending.value != effect) then (a, false)
    else if a.lease.value.pending.None? then (a, true)
    else if a.file.Absent? || io.file.UnlinkFails? then (a, false)
    else (a.(file := Absent, lease := Some(a.lease.value.(pending := None))), true)
  }

  lemma {:induction false} LeastExists(s: set<int>) returns (k: int)
    requires s != {}
    ensures k in s && forall j | j in s :: k <= j
  {
    var x := Pick(s);
    k := x;
    var rest := s - {x};
    assert forall j | j in s :: j == x || j in rest;
    if rest != {} {
      var other := LeastExists(rest);
      k := if other < k then other else k;
    }
  }

  function Least(s: set<int>): (k: int)
    requires s != {}
    ensures k in s && forall j | j in s :: k <= j
  {
    assert exists k :: k in s && forall j | j in s :: k <= j by { var k := LeastExists(s); }
    var k :| k in s && forall j | j in s :: k <= j;
    k
  }

  /** The `count` smallest keys: the ones whose key-up went out first. */
  function Smallest(keys: set<int>, count: nat): set<int>
    decreases count
  {
    if count == 0 || keys == {} then {}
    else {Least(keys)} + Smallest(keys - {Least(keys)}, count - 1)
  }

  lemma {:induction false} SmallestGrows(keys: set<int>, count: nat, more: nat)
    requires count <= more
    ensures Smallest(keys, count) <= Smallest(keys, more) <= keys
    decreases more
  {
    if more > 0 && keys != {} {
      SmallestGrows(keys - {Least(keys)}, if count == 0 then 0 else count - 1, more - 1);
    }
  }

  function AcquireLease(a: State, id: string, duration: Option<int>, t: Ticks, io: Io): (State, bool) {
    if duration.None? || !(2000 <= duration.value <= 30000) then (a, false)
    else if id in a.retired || (a.lease.Some? && a.lease.value.id != id) then (a, false)
    else if a.lease.Some? then (a, true)
    else if io.uinput then (a, false)
    else
      var deadline := t.grant + duration.value as real / 1000.0;
      if io.native.KeyUpFails? && a.keys != {} then
        (a.(native := Native(a.native.pressed - Smallest(a.keys, io.native.sent), a.native.settled && io.native.sent == 0)), false)
      else
        var released := a.(keys := {}, native := Native(a.native.pressed - a.keys, a.native.settled && a.keys == {}));
        if io.native.PointerFails? || io.native.SyncBarrierFails? then (released, false)
        else
          var synced := released.(native := Native(released.native.pressed, true));
          if t.late >= deadline then (Retire(synced, id), false)
          else (synced.(lease := Some(Lease(id, deadline, None, false))), true)
  }

  function ReleaseLease(a: State, id: string): State {
    var r := Retire(a, id);
    if r.lease.Some? && r.lease.value.id == id
    then r.(lease := Some(r.lease.value.(releaseRequested := true)))
    else r
  }

  /** The command's branch: the new state, and whether it went through without an exception. */
  function Dispatch(a: State, q: Request, t: Ticks, io: Io): (State, bool) {
    match q.verb
    case Release => (ReleaseLease(a, q.admission), true)
    case Begin => BeginEffect(a, q.admission, q.effect, t, io)
    case Settle => SettleEffect(a, q.admission, q.effect, io)
    case Acquire => AcquireLease(a, q.admission, q.duration, t, io)
    case Check => (a, true)
    case Unknown => (a, false)
  }

  predicate Admitted(s: State, q: Request, io: Io) {
    q.wellFormed && ValidAdmission(q.admission) && !io.lockTimesOut && !s.closed
  }

  function Answer(s: State, id: string, t: real): Outcome {
    var mine := s.lease.Some? && s.lease.value.id == id;
    Reply(mine && !s.lease.value.releaseRequested && t < s.lease.value.expires,
          mine, if mine then s.lease.value.pending else None)
  }

  function Command(s: State, q: Request, t: Ticks, io: Io): (State, Outcome) {
    if !Admitted(s, q, io) then (s, Raised)
    else
      var (d, ok) := Dispatch(Active(s, t.enter), q, t, io);
      if !ok then (d, Raised)
      else
        var z := Active(d, t.exit);
        (z, Answer(z, q.admission, t.reply))
  }

  /** `kept`: the removal of the socket path failed. */
  function Close(s: State, kept: bool): State {
    s.(closed := true, lease := None, socket := s.socket && kept)
  }

  /** How the constructor fares after the pending file: `LaterFails` stands for an exception behind the bind. */
  datatype Setup = SetupWorks | BindFails | LaterFails

  /** The lease that the pending file restores; None when the constructor refuses the file. */
  function Restored(file: PendingFile, t: real): Option<Option<Lease>> {
    if file.Absent? then Some(None)
    else if !file.trusted || |file.text| > 1024 then None
    else match Read(file.text)
      case None => None
      case Some(r) => Some(Some(Lease(r.admission, t, Some(r.effect), true)))
  }

  /** The constructor, and whether the socket path exists after it: the bind refuses a path that is there. */
  function Start(file: PendingFile, socket: bool, native: Native, t: real, setup: Setup): (Option<State>, bool) {
    match Restored(file, t)
    case None => (None, socket)
    case Some(lease) =>
      if socket || setup.BindFails? then (None, socket)
      else if setup.LaterFails? then (None, true)
      else (Some(State(lease, [], [], {}, false, true, file, native)), true)
  }
}
