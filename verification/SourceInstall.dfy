/**
 The installation transaction: the Runtime file and the receipt that vouches for it are two
 files, each replaced by one atomic rename. Every operation can refuse, be cut off by a hard
 stop, or be followed by an asynchronous exception before the program notes its effect.
 */
module SourceInstall {
  import opened Wrappers

  type Bytes = seq<bv8>

  datatype Receipt = Receipt(built: string, installed: string)
  datatype Content = Program(bytes: Bytes) | Record(receipt: Receipt) | Unfinished

  /** The two final names and the names of this run's three temporary files, which are new. */
  datatype Files = Files(
    runtime: Option<Content>, receipt: Option<Content>,
    stagedRuntime: Option<Content>, stagedReceipt: Option<Content>, withdrawn: Option<Content>)

  /** How an operation, or the whole installation, ends. `Failed`: an OSError or a failed test, without effect.
      `Interrupted`: an asynchronous exception right after the effect. `Stopped`: a hard stop before the effect. */
  datatype Outcome = Ok | Failed | Interrupted | Stopped

  type Fault = o: Outcome | !o.Ok? witness Failed

  /** The operations of the body of `install` in program order. */
  const STAGE_CREATE := 0
  const STAGE_MODE := 1
  const STAGE_COPY := 2
  const STAGE_SYNC := 3
  const STAGE_CLOSE := 4
  const STAGE_VERIFY := 5
  const SOURCE_CLOSE := 6
  const COMPARE_BUILT := 7
  const CHECK_COMPONENTS := 8
  const RECEIPT_CREATE := 9
  const RECEIPT_MODE := 10
  const RECEIPT_WRITE := 11
  const RECEIPT_SYNC := 12
  const RECEIPT_CLOSE := 13
  const WITHDRAW_CREATE := 14
  const WITHDRAW_MODE := 15
  const WITHDRAW_CLOSE := 16
  const WITHDRAW := 17
  const WITHDRAW_SYNC := 18
  const PUBLISH_RUNTIME := 19
  const RUNTIME_MODE := 20
  const RUNTIME_SYNC := 21
  const VERIFY_INSTALLED := 22
  const DROP_WITHDRAWN := 23
  const DROP_SYNC := 24
  const HOOK := 25
  const PUBLISH_RECEIPT := 26
  const FINAL_MODE := 27
  const FINAL_SYNC := 28
  const CHECK_RUNTIME := 29
  const CHECK_RECEIPT := 30
  const CHECK_SIZE := 31
  const END := 32

  /** The operations of its handlers. */
  datatype Op =
    | AbortStage | AbortReceipt | AbortWithdraw
    | FinallyDrop | FinallyRestore | FinallySync | FinallyUnpublish | FinallyUnpublishSync | FinallyStage | FinallyReceipt

  /** A receipt at its final name vouches for the Runtime bytes that are installed. */
  predicate Truthful(files: Files, sha: Bytes -> string) {
    files.receipt.Some? ==>
      && files.receipt.value.Record?
      && files.runtime.Some? && files.runtime.value.Program?
      && files.receipt.value.receipt.installed == sha(files.runtime.value.bytes)
  }

  /** No temporary file is left. */
  predicate Tidy(files: Files) {
    files.stagedRuntime.None? && files.stagedReceipt.None? && files.withdrawn.None?
  }

  class Installation {
    var files: Files
    const sha: Bytes -> string
    /** The bytes of the built Runtime when it was hashed and when it was staged. */
    const hashed: Bytes
    const staged: Bytes
    /** The rank of the first operation of the body that does not go through, END if all do, and how it fails. */
    const at: nat
    const fault: Fault
    /** How the operations of the handlers end. */
    const handlers: Op -> Outcome

    // The local variables of `install`.
    var runtimeStage: bool
    var receiptStage: bool
    var withdrawn: bool
    var runtimeReplaced: bool
    var receiptPublished: bool
    var completed: bool

    constructor (files: Files, sha: Bytes -> string, hashed: Bytes, staged: Bytes, at: nat, fault: Fault, handlers: Op -> Outcome)
      ensures this.files == files && this.sha == sha && this.hashed == hashed && this.staged == staged
      ensures this.at == at && this.fault == fault && this.handlers == handlers && Idle()
    {
      this.files, this.sha, this.hashed, this.staged := files, sha, hashed, staged;
      this.at, this.fault, this.handlers := at, fault, handlers;
      runtimeStage, receiptStage, withdrawn, runtimeReplaced, receiptPublished, completed := false, false, false, false, false, false;
    }

    predicate Idle()
      reads this
    {
      !runtimeStage && !receiptStage && !withdrawn && !runtimeReplaced && !receiptPublished && !completed
    }

    /** The comparison of the two hashes fails by itself when they differ. */
    predicate Mismatch() {
      sha(hashed) != sha(staged) && COMPARE_BUILT < at
    }

    function Now(op: nat): Outcome {
      if op == COMPARE_BUILT && Mismatch() then Failed else if op == at then fault else Ok
    }

    predicate Takes(op: nat) {
      Now(op).Ok? || Now(op).Interrupted?
    }

    predicate Mends(op: Op) {
      handlers(op).Ok? || handlers(op).Interrupted?
    }

    function Fresh(): Content {
      Record(Receipt(sha(hashed), sha(staged)))
    }

    /** The operation at which a run breaks off; the ones on an old receipt run only if there is one. */
    function Break(had: bool): nat {
      if Mismatch() then COMPARE_BUILT
      else if END < at || (!had && (WITHDRAW_CREATE <= at <= WITHDRAW_SYNC || DROP_WITHDRAWN <= at <= DROP_SYNC)) then END
      else at
    }

    /** A refusal here leaves a temporary file behind: the program has no name for the file yet, its handler fails
        on the closed descriptor before it removes the file, or the name is lost with the result that the
        failing close of the source replaces. */
    predicate Leaks(had: bool) {
      RuntimeLeaks(had) || ReceiptLeaks(had) || WithdrawnLeaks(had)
    }

    predicate RuntimeLeaks(had: bool) {
      Break(had) == at && fault.Failed? && (at == STAGE_MODE || at == STAGE_CLOSE || at == SOURCE_CLOSE)
    }

    predicate ReceiptLeaks(had: bool) {
      Break(had) == at && fault.Failed? && (at == RECEIPT_MODE || at == RECEIPT_CLOSE)
    }

    predicate WithdrawnLeaks(had: bool) {
      Break(had) == at && fault.Failed? && (at == WITHDRAW_MODE || at == WITHDRAW_CLOSE)
    }

    /** No stop and no asynchronous exception, and the handlers' removals and restores succeed. */
    predicate Orderly() {
      && fault.Failed?
      && handlers(AbortStage).Ok? && handlers(AbortReceipt).Ok? && handlers(AbortWithdraw).Ok?
      && handlers(FinallyDrop).Ok? && handlers(FinallyRestore).Ok? && handlers(FinallyUnpublish).Ok?
      && handlers(FinallyStage).Ok? && handlers(FinallyReceipt).Ok?
      && (handlers(FinallySync).Ok? || handlers(FinallySync).Failed?)
      && (handlers(FinallyUnpublishSync).Ok? || handlers(FinallyUnpublishSync).Failed?)
    }

    /** That is: every handler's operation succeeds, but for the two syncs, which may be refused. */
    lemma OrderlyExactly()
      ensures Orderly() <==>
                && fault.Failed?
                && forall op :: handlers(op).Ok? || (handlers(op).Failed? && (op == FinallySync || op == FinallyUnpublishSync))
    {
      if Orderly() {
        forall op: Op
          ensures handlers(op).Ok? || (handlers(op).Failed? && (op == FinallySync || op == FinallyUnpublishSync))
        {
          match op {
            case AbortStage =>
            case _ =>
          }
        }
      }
    }

    /** The only way to a false receipt: an exception between the rename of the Runtime and the
        note that it took place, upon which the handler restores the receipt of the old Runtime. */
    ghost predicate StaleRestore(was: Files) {
      && was.receipt.Some? && was.receipt.value.Record?
      && Break(true) == PUBLISH_RUNTIME && fault.Interrupted?
      && (handlers(FinallyRestore).Ok? || handlers(FinallyRestore).Interrupted?)
      && was.receipt.value.receipt.installed != sha(staged)
    }

    /** One temporary file is made, filled, synced and closed; a failure removes it except in three windows. */
    method StageRuntimeFile() returns (r: Outcome)
      requires files.stagedRuntime.None? && !runtimeStage
      modifies `files, `runtimeStage
      ensures files == old(files).(stagedRuntime := files.stagedRuntime)
      ensures r.Ok? <==> COMPARE_BUILT <= at
      ensures runtimeStage <==> r.Ok?
      ensures r.Ok? ==> files.stagedRuntime == Some(Program(staged))
      ensures Orderly() && !r.Ok? ==> r.Failed? && (files.stagedRuntime.Some? <==> at == STAGE_MODE || at == STAGE_CLOSE || at == SOURCE_CLOSE)
    {
      r := Now(STAGE_CREATE);
      if Takes(STAGE_CREATE) {
        files := files.(stagedRuntime := Some(Unfinished));
      }
      if r.Ok? {
        r := Now(STAGE_MODE);
      }
      var abort := false;
      if r.Ok? {
        r := Now(STAGE_COPY);
        if r.Ok? {
          files := files.(stagedRuntime := Some(Program(staged)));
          r := Now(STAGE_SYNC);
        }
        abort := r.Failed?;
      }
      if r.Ok? {
        r := Now(STAGE_CLOSE);
      }
      if r.Ok? {
        r := Now(STAGE_VERIFY);
        abort := r.Failed?;
      }
      if abort {
        if Mends(AbortStage) {
          files := files.(stagedRuntime := None);
        }
        r := if handlers(AbortStage).Ok? then r else handlers(AbortStage);
      }
      if r.Ok? {
        r := Now(SOURCE_CLOSE);
      }
      runtimeStage := r.Ok?;
    }

    method StageReceiptFile() returns (r: Outcome)
      requires files.stagedReceipt.None? && !receiptStage && CHECK_COMPONENTS < at
      modifies `files, `receiptStage
      ensures files == old(files).(stagedReceipt := files.stagedReceipt)
      ensures r.Ok? <==> RECEIPT_CLOSE < at
      ensures receiptStage <==> r.Ok?
      ensures r.Ok? ==> files.stagedReceipt == Some(Fresh())
      ensures Orderly() && !r.Ok? ==> r.Failed? && (files.stagedReceipt.Some? <==> at == RECEIPT_MODE || at == RECEIPT_CLOSE)
    {
      r := Now(RECEIPT_CREATE);
      if Takes(RECEIPT_CREATE) {
        files := files.(stagedReceipt := Some(Unfinished));
      }
      if r.Ok? {
        r := Now(RECEIPT_MODE);
      }
      var abort := false;
      if r.Ok? {
        r := Now(RECEIPT_WRITE);
        if r.Ok? {
          files := files.(stagedReceipt := Some(Fresh()));
          r := Now(RECEIPT_SYNC);
        }
        abort := r.Failed?;
      }
      if r.Ok? {
        r := Now(RECEIPT_CLOSE);
      }
      if abort {
        if Mends(AbortReceipt) {
          files := files.(stagedReceipt := None);
        }
        r := if handlers(AbortReceipt).Ok? then r else handlers(AbortReceipt);
      }
      receiptStage := r.Ok?;
    }

    /** Moves the old receipt aside. */
    method WithdrawReceipt() returns (r: Outcome)
      requires files.receipt.Some? && files.withdrawn.None? && !withdrawn && RECEIPT_CLOSE < at
      modifies `files, `withdrawn
      ensures files == old(files).(receipt := files.receipt, withdrawn := files.withdrawn)
      ensures r.Ok? <==> WITHDRAW_SYNC < at
      ensures r.Ok? ==> withdrawn
      ensures withdrawn ==> WITHDRAW < at && files.receipt.None? && files.withdrawn == old(files).receipt
      ensures files.receipt.Some? ==> files.receipt == old(files).receipt
      ensures Orderly() && !r.Ok? && !withdrawn ==> files.receipt.Some?
      ensures Orderly() && !r.Ok? ==> r.Failed?
      ensures Orderly() && !r.Ok? && !withdrawn ==> (files.withdrawn.Some? <==> at == WITHDRAW_MODE || at == WITHDRAW_CLOSE)
    {
      r := Now(WITHDRAW_CREATE);
      if Takes(WITHDRAW_CREATE) {
        files := files.(withdrawn := Some(Unfinished));
      }
      if r.Ok? {
        r := Now(WITHDRAW_MODE);
      }
      if r.Ok? {
        r := Now(WITHDRAW_CLOSE);
      }
      if r.Ok? {
        r := Now(WITHDRAW);
        if Takes(WITHDRAW) {
          files := files.(receipt := None, withdrawn := files.receipt);
        }
        withdrawn := r.Ok?;
        if r.Failed? {
          if Mends(AbortWithdraw) {
            files := files.(withdrawn := None);
          }
          r := if handlers(AbortWithdraw).Ok? then r else handlers(AbortWithdraw);
        }
      }
      if r.Ok? {
        r := Now(WITHDRAW_SYNC);
      }
    }

    method PublishRuntimeFile() returns (r: Outcome)
      requires runtimeStage && !runtimeReplaced && files.stagedRuntime == Some(Program(staged))
      requires !Mismatch()
      modifies `files, `runtimeStage, `runtimeReplaced
      ensures files == old(files).(runtime := files.runtime, stagedRuntime := files.stagedRuntime)
      ensures r.Ok? <==> !(PUBLISH_RUNTIME <= at <= VERIFY_INSTALLED)
      ensures runtimeReplaced <==> at != PUBLISH_RUNTIME
      ensures runtimeStage <==> !runtimeReplaced
      ensures if runtimeReplaced || fault.Interrupted? then files.runtime == old(files).stagedRuntime && files.stagedRuntime.None?
              else files == old(files)
      ensures r.Ok? || r == fault
    {
      r := Now(PUBLISH_RUNTIME);
      if Takes(PUBLISH_RUNTIME) {
        files := files.(runtime := files.stagedRuntime, stagedRuntime := None);
      }
      if r.Ok? {
        runtimeStage, runtimeReplaced := false, true;
        r := Now(RUNTIME_MODE);
      }
      if r.Ok? {
        r := Now(RUNTIME_SYNC);
      }
      if r.Ok? {
        r := Now(VERIFY_INSTALLED);
      }
    }

    /** Removes the receipt that was moved aside. */
    method DropOldReceipt() returns (r: Outcome)
      requires withdrawn && files.withdrawn.Some? && !Mismatch()
      modifies `files, `withdrawn
      ensures files == old(files).(withdrawn := files.withdrawn)
      ensures r.Ok? <==> at != DROP_WITHDRAWN && at != DROP_SYNC
      ensures r.Ok? || r == fault
      ensures withdrawn <==> at == DROP_WITHDRAWN
      ensures files.withdrawn.Some? <==> withdrawn && !fault.Interrupted?
    {
      r := Now(DROP_WITHDRAWN);
      if Takes(DROP_WITHDRAWN) {
        files := files.(withdrawn := None);
      }
      if r.Ok? {
        withdrawn := false;
        r := Now(DROP_SYNC);
      }
    }

    method PublishReceiptFile() returns (r: Outcome)
      requires receiptStage && !receiptPublished && !completed && files.stagedReceipt == Some(Fresh())
      requires !Mismatch()
      modifies `files, `receiptStage, `receiptPublished, `completed
      ensures files == old(files).(receipt := files.receipt, stagedReceipt := files.stagedReceipt)
      ensures r.Ok? <==> !(HOOK <= at < END)
      ensures r.Ok? || r == fault
      ensures completed <==> r.Ok?
      ensures receiptPublished <==> at != HOOK && at != PUBLISH_RECEIPT
      ensures receiptStage <==> !receiptPublished
      ensures if receiptPublished || (at == PUBLISH_RECEIPT && fault.Interrupted?)
              then files.receipt == Some(Fresh()) && files.stagedReceipt.None?
              else files == old(files)
    {
      r := Now(HOOK);
      if r.Ok? {
        r := Now(PUBLISH_RECEIPT);
        if Takes(PUBLISH_RECEIPT) {
          files := files.(receipt := files.stagedReceipt, stagedReceipt := None);
        }
      }
      if r.Ok? {
        receiptStage, receiptPublished := false, true;
        r := Now(FINAL_MODE);
      }
      if r.Ok? {
        r := Now(FINAL_SYNC);
      }
      if r.Ok? {
        r := Now(CHECK_RUNTIME);
      }
      if r.Ok? {
        r := Now(CHECK_RECEIPT);
      }
      if r.Ok? {
        r := Now(CHECK_SIZE);
      }
      completed := r.Ok?;
    }

    /** The rename of the Runtime took effect. */
    predicate Swapped(had: bool) {
      PUBLISH_RUNTIME < Break(had) || (Break(had) == PUBLISH_RUNTIME && fault.Interrupted?)
    }

    /** What the handler finds, wherever the body broke off. */
    ghost predicate Broken(was: Files)
      reads this
    {
      var had := was.receipt.Some?;
      && files.runtime == (if Swapped(had) then Some(Program(staged)) else was.runtime)
      && (runtimeReplaced <==> PUBLISH_RUNTIME < Break(had))
      && (completed <==> Break(had) == END)
      && (completed ==> receiptPublished && !withdrawn && !runtimeStage && !receiptStage)
      && (completed ==> files == Files(Some(Program(staged)), Some(Fresh()), None, None, None))
      && (receiptPublished ==> PUBLISH_RECEIPT < Break(had))
      && (receiptPublished ==> files.receipt == Some(Fresh()))
      && (withdrawn ==> had && !receiptPublished && files.receipt.None?)
      && (withdrawn && !runtimeReplaced ==> files.withdrawn == was.receipt)
      && (!withdrawn ==> files.receipt.None? || files.receipt == (if runtimeReplaced then Some(Fresh()) else was.receipt))
      && (Swapped(had) && !runtimeReplaced && had ==> withdrawn)
    }

    /** Without stops and exceptions from outside the program still knows what it has to undo. */
    predicate Tracked(was: Files)
      reads this
    {
      var had := was.receipt.Some?;
      && files.stagedRuntime.Some? == (runtimeStage != RuntimeLeaks(had))
      && files.stagedReceipt.Some? == (receiptStage != ReceiptLeaks(had))
      && files.withdrawn.Some? == (withdrawn != WithdrawnLeaks(had))
      && (Leaks(had) ==> !withdrawn && !(runtimeStage && RuntimeLeaks(had)) && !(receiptStage && ReceiptLeaks(had)))
      && (!runtimeReplaced ==> withdrawn || files.receipt == was.receipt)
      && (runtimeReplaced && !receiptPublished ==> files.receipt.None?)
    }

    /** The body of the transaction. */
    method Publish() returns (r: Outcome)
      requires Idle() && Tidy(files)
      modifies this
      ensures r.Ok? <==> completed
      ensures Broken(old(files))
      ensures Orderly() ==> (r.Ok? || r.Failed?) && Tracked(old(files))
      ensures Break(old(files).receipt.Some?) == PUBLISH_RUNTIME ==> r == fault
    {
      var had := files.receipt.Some?;
      r := StageRuntimeFile();
      if r.Ok? {
        r := Now(COMPARE_BUILT);
      }
      if r.Ok? {
        r := Now(CHECK_COMPONENTS);
      }
      if r.Ok? {
        r := StageReceiptFile();
      }
      if r.Ok? && had {
        r := WithdrawReceipt();
      }
      if r.Ok? {
        r := PublishRuntimeFile();
      }
      if r.Ok? && withdrawn {
        r := DropOldReceipt();
      }
      if r.Ok? {
        r := PublishReceiptFile();
      }
    }

    /** The `finally` clause. */
    method Repair(ghost was: Files, ended: Outcome) returns (r: Outcome)
      requires Broken(was) && !ended.Stopped? && (ended.Ok? <==> completed)
      modifies `files
      ensures Truthful(was, sha) ==> (Truthful(files, sha) <==> !StaleRestore(was))
      ensures (r.Ok? <==> completed) && (completed ==> files == old(files))
      ensures files.runtime == old(files).runtime
      ensures files.receipt.None? || files.receipt == was.receipt || files.receipt == Some(Fresh())
      ensures Orderly() && old(Tracked(was)) ==>
        && r == ended
        && (!completed ==> files.receipt == if runtimeReplaced then None else was.receipt)
        && (completed || (Tidy(files) <==> !Leaks(was.receipt.Some?)))
    {
      r := Ok;
      if withdrawn {
        if runtimeReplaced {
          if Mends(FinallyDrop) {
            files := files.(withdrawn := None);
          }
          r := handlers(FinallyDrop);
        } else {
          if Mends(FinallyRestore) {
            files := files.(receipt := files.withdrawn, withdrawn := None);
          }
          r := if handlers(FinallyRestore).Failed? then Ok else handlers(FinallyRestore);
        }
        if r.Ok? && !handlers(FinallySync).Failed? {
          r := handlers(FinallySync);
        }
      }
      if r.Ok? && receiptPublished && !completed {
        if Mends(FinallyUnpublish) {
          files := files.(receipt := None);
        }
        r := handlers(FinallyUnpublish);
        if r.Ok? && !handlers(FinallyUnpublishSync).Failed? {
          r := handlers(FinallyUnpublishSync);
        }
      }
      if r.Ok? && runtimeStage {
        if Mends(FinallyStage) {
          files := files.(stagedRuntime := None);
        }
        r := handlers(FinallyStage);
      }
      if r.Ok? && receiptStage {
        if Mends(FinallyReceipt) {
          files := files.(stagedReceipt := None);
        }
        r := handlers(FinallyReceipt);
      }
      if r.Ok? {
        r := ended;
      }
    }

    method Install() returns (r: Outcome)
      requires Idle() && Tidy(files)
      modifies this
      // Wherever the run ends, the receipt is true unless the one bad interruption happened.
      ensures Truthful(old(files), sha) ==> (Truthful(files, sha) <==> !StaleRestore(old(files)))
      ensures files.runtime == if Swapped(old(files).receipt.Some?) then Some(Program(staged)) else old(files).runtime
      ensures files.receipt.None? || files.receipt == old(files).receipt || files.receipt == Some(Fresh())
      // Success, exactly when every operation goes through.
      ensures r.Ok? <==> Break(old(files).receipt.Some?) == END
      ensures r.Ok? ==> sha(hashed) == sha(staged) && files == Files(Some(Program(staged)), Some(Fresh()), None, None, None)
      // Failure: all as before up to the rename of the Runtime, no receipt after it.
      ensures Orderly() && !r.Ok? ==> r.Failed? && files.receipt == if Swapped(old(files).receipt.Some?) then None else old(files).receipt
      // And no temporary file, but for the leaking windows.
      ensures Orderly() ==> (Tidy(files) <==> !Leaks(old(files).receipt.Some?))
    {
      ghost var was := files;
      r := Publish();
      if !r.Stopped? {
        r := Repair(was, r);
      }
    }
  }

  /** The one bad interruption, for any two Runtimes with different hashes: the old receipt comes back beside the new Runtime. */
  method InterruptedRename(sha: Bytes -> string, last: Bytes, next: Bytes) returns (was: Files, end: Files)
    requires sha(last) != sha(next)
    ensures was == Files(Some(Program(last)), Some(Record(Receipt(sha(last), sha(last)))), None, None, None)
    ensures Truthful(was, sha) && !Truthful(end, sha)
    ensures end.receipt == was.receipt && end.runtime == Some(Program(next))
  {
    was := Files(Some(Program(last)), Some(Record(Receipt(sha(last), sha(last)))), None, None, None);
    var run := new Installation(was, sha, next, next, PUBLISH_RUNTIME, Interrupted, _ => Ok);
    var r := run.Install();
    end := run.files;
    assert run.StaleRestore(was);
  }

  // ---------------------------------------------------------------- two runs at once

  /** What the runs of one directory do to its two names once their files are staged: each withdraws a receipt that is
      there, renames and tests its Runtime, and renames its receipt. */
  datatype Act = Withdraw | PutRuntime(program: Bytes) | TestRuntime(program: Bytes) | PutReceipt(program: Bytes)

  predicate Passes(files: Files, act: Act, sha: Bytes -> string) {
    act.TestRuntime? ==>
      files.runtime.Some? && files.runtime.value.Program? && sha(files.runtime.value.bytes) == sha(act.program)
  }

  function Acted(files: Files, act: Act, sha: Bytes -> string): Files {
    match act
    case Withdraw => files.(receipt := None)
    case PutRuntime(program) => files.(runtime := Some(Program(program)))
    case TestRuntime(_) => files
    case PutReceipt(program) => files.(receipt := Some(Record(Receipt(sha(program), sha(program)))))
  }

  predicate AllPass(files: Files, acts: seq<Act>, sha: Bytes -> string)
    decreases |acts|
  {
    acts == [] || (Passes(files, acts[0], sha) && AllPass(Acted(files, acts[0], sha), acts[1..], sha))
  }

  /** That is: each test finds a Runtime of its hash. */
  lemma {:induction false} AllPassExactly(files: Files, acts: seq<Act>, sha: Bytes -> string)
    ensures AllPass(files, acts, sha) <==> forall i | 0 <= i < |acts| && acts[i].TestRuntime? ::
              exists found :: Together(files, acts[..i], sha).runtime == Some(Program(found)) && sha(found) == sha(acts[i].program)
    decreases |acts|
  {
    if acts != [] {
      var rest, next := acts[1..], Acted(files, acts[0], sha);
      AllPassExactly(next, rest, sha);
      forall i | 0 <= i < |rest|
        ensures Together(next, rest[..i], sha) == Together(files, acts[..i + 1], sha) && acts[i + 1] == rest[i]
      {
        assert acts[..i + 1][1..] == rest[..i];
      }
      assert Together(files, acts[..0], sha) == files;
      assert forall i | 1 <= i < |acts| :: acts[i] == rest[i - 1];
    }
  }

  function Together(files: Files, acts: seq<Act>, sha: Bytes -> string): Files
    decreases |acts|
  {
    if acts == [] then files else Together(Acted(files, acts[0], sha), acts[1..], sha)
  }

  /** The programs of the last Runtime and of the last receipt that were put in place. */
  function LastRuntime(acts: seq<Act>, before: Bytes): Bytes {
    if acts == [] then before
    else LastRuntime(acts[1..], if acts[0].PutRuntime? then acts[0].program else before)
  }

  function Receipted(act: Act, before: Option<Bytes>): Option<Bytes> {
    match act
    case Withdraw => None
    case PutReceipt(program) => Some(program)
    case _ => before
  }

  function LastReceipt(acts: seq<Act>, before: Option<Bytes>): Option<Bytes> {
    if acts == [] then before else LastReceipt(acts[1..], Receipted(acts[0], before))
  }

  function ReceiptFor(program: Option<Bytes>, sha: Bytes -> string): Option<Content> {
    if program.None? then None else Some(Record(Receipt(sha(program.value), sha(program.value))))
  }

  /** However runs interleave: the receipt is true in the end exactly if there is none, or the last Runtime and the last
      receipt that were put in place have one hash. */
  lemma {:induction false} LastOnesDecide(files: Files, acts: seq<Act>, sha: Bytes -> string, installed: Bytes, vouched: Option<Bytes>)
    requires files.runtime == Some(Program(installed)) && files.receipt == ReceiptFor(vouched, sha)
    ensures var last := LastReceipt(acts, vouched);
            Truthful(Together(files, acts, sha), sha) <==> last.None? || sha(last.value) == sha(LastRuntime(acts, installed))
    decreases |acts|
  {
    if acts != [] {
      LastOnesDecide(Acted(files, acts[0], sha), acts[1..], sha,
                     if acts[0].PutRuntime? then acts[0].program else installed, Receipted(acts[0], vouched));
    }
  }

  /** Two runs whose every test passes, and the receipt of the first beside the Runtime of the second. */
  lemma OverlappingRuns(files: Files, sha: Bytes -> string, first: Bytes, second: Bytes) returns (acts: seq<Act>)
    requires sha(first) != sha(second)
    ensures acts == [Withdraw, PutRuntime(first), TestRuntime(first), PutRuntime(second), TestRuntime(second),
                     PutReceipt(second), PutReceipt(first)]
    ensures AllPass(files, acts, sha) && !Truthful(Together(files, acts, sha), sha)
  {
    acts := [Withdraw, PutRuntime(first), TestRuntime(first), PutRuntime(second), TestRuntime(second),
             PutReceipt(second), PutReceipt(first)];
    var bare := files.(receipt := None);
    var f, s := bare.(runtime := Some(Program(first))), bare.(runtime := Some(Program(second)));
    var v, z := s.(receipt := ReceiptFor(Some(second), sha)), s.(receipt := ReceiptFor(Some(first), sha));
    NextAct(v, z, acts, 6, sha);
    NextAct(s, v, acts, 5, sha);
    NextAct(s, s, acts, 4, sha);
    NextAct(f, s, acts, 3, sha);
    NextAct(f, f, acts, 2, sha);
    NextAct(bare, f, acts, 1, sha);
    NextAct(files, bare, acts, 0, sha);
    assert acts[0..] == acts && acts[7..] == [];
  }

  lemma NextAct(files: Files, next: Files, acts: seq<Act>, i: nat, sha: Bytes -> string)
    requires i < |acts| && next == Acted(files, acts[i], sha)
    ensures Together(files, acts[i..], sha) == Together(next, acts[i + 1..], sha)
    ensures AllPass(files, acts[i..], sha) <==> Passes(files, acts[i], sha) && AllPass(next, acts[i + 1..], sha)
  {
    assert acts[i..][1..] == acts[i + 1..];
  }

  /** How many bytes a read or write of up to `most` moves: at least one, at the system's choice. */
  function Moved(wish: nat, most: nat): (n: nat)
    requires most > 0
    ensures 1 <= n <= most && (1 <= wish <= most ==> n == wish)
  {
    if wish == 0 then 1 else if wish > most then most else wish
  }

  const CHUNK := 1024 * 1024

  function Least(a: nat, b: nat): (r: nat)
    ensures r <= a && r <= b && (r == a || r == b)
  {
    if a < b then a else b
  }

  /** The metadata that is compared: size and modification time. */
  datatype Meta = Meta(size: nat, modified: nat)

  /** Copies what the source yields, in reads and writes of any size, and digests it on the way. `before` and
      `after` are the source's metadata before the first read and after the last one. */
  method CopyProgram(source: Bytes, before: Meta, after: Meta, limit: nat, readSizes: nat -> nat, writeSizes: (nat, nat) -> nat)
    returns (copy: Option<Bytes>, digested: Bytes)
    ensures copy.Some? <==> |source| <= limit && |source| == before.size && after == before
    ensures copy.Some? ==> copy.value == source && digested == source
  {
    var target: Bytes := [];
    digested := [];
    var total := 0;
    while total < |source|
      invariant total <= |source| && total <= limit
      invariant digested == source[..total] && target == source[..total]
    {
      var chunk := source[total..total + Moved(readSizes(total), Least(CHUNK, |source| - total))];
      total := total + |chunk|;
      if total > limit {
        return None, digested;
      }
      digested := digested + chunk;
      var view := chunk;
      while view != []
        invariant target + view == source[..total]
        decreases |view|
      {
        var written := Moved(writeSizes(total, |view|), |view|);
        assert view == view[..written] + view[written..];
        target := target + view[..written];
        view := view[written..];
      }
    }
    copy := if total != before.size || after.size != before.size || after.modified != before.modified then None else Some(target);
  }

  /** The digest covers the whole file, or the call fails; never is more than one byte over the limit read. */
  method HashDescriptor(content: Bytes, before: Meta, after: Meta, limit: nat, readSizes: nat -> nat) returns (digested: Option<Bytes>, total: nat)
    ensures digested.Some? <==> |content| <= limit && |content| == before.size && after == before
    ensures digested.Some? ==> digested.value == content
    ensures total <= limit + 1 && total <= |content|
  {
    var digest: Bytes := [];
    total := 0;
    while total < |content|
      invariant total <= |content| && total <= limit
      invariant digest == content[..total]
    {
      var chunk := content[total..total + Moved(readSizes(total), Least(Least(CHUNK, limit + 1 - total), |content| - total))];
      total := total + |chunk|;
      if total > limit {
        return None, total;
      }
      digest := digest + chunk;
    }
    digested := if total != before.size || after.size != before.size || after.modified != before.modified then None else Some(digest);
  }
}
