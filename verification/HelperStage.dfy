/**
 Publication of the helper files while another actor changes the output directory between any
 two operations: all files are admitted first, then published, and a failure removes what was
 created, told by the identity of the file. The functions say what a run does to the directory,
 the class is proved equal to them, and the lemmas say what that means.
 */
module HelperStage {
  import opened Wrappers

  type Name = string
  type Bytes = seq<bv8>

  /** `ours` marks the files that this run created; the program only sees `id`, the device and inode, and `regular`. */
  datatype File = File(id: nat, regular: bool, bytes: Bytes, ours: bool)

  type Dir = map<Name, File>

  /** The points at which the other actor gets to act. */
  datatype Moment = Admitting(i: nat) | Opening(i: nat) | Writing(i: nat) | Looking(i: nat) | Unlinking(i: nat)

  datatype Item = Item(name: Name, bytes: Bytes)

  /** What the program remembers of a file it created. */
  datatype Created = Created(name: Name, id: nat)

  /** A removal: the file as it was looked at, and the file that was unlinked. */
  datatype Removal = Removal(name: Name, seen: File, taken: File)

  /** The other actor, the identities that the system gives out, and the faults. `noteFails`: an exception after
      the file was created and before the program noted it. `undoFails`: any exception of a turn of the
      handler but the one for a missing file. */
  datatype Env = Env(world: (Moment, Dir) -> Dir, ids: nat -> nat, openFails: nat -> bool, noteFails: nat -> bool,
                     writeFails: nat -> bool, undoFails: nat -> bool)

  // ---------------------------------------------------------------- what a run does

  /** What writing through an open descriptor does: the bytes change wherever the file is. */
  function Written(dir: Dir, id: nat, bytes: Bytes): Dir {
    map n | n in dir :: if dir[n].ours && dir[n].id == id then dir[n].(bytes := bytes) else dir[n]
  }

  function New(env: Env, i: nat): File {
    File(env.ids(i), true, [], true)
  }

  /** The directory before the i-th item, if all earlier ones went well. */
  function FillDir(env: Env, items: seq<Item>, d: Dir, i: nat): Dir
    requires i <= |items|
    decreases i, 0
  {
    if i == 0 then d
    else Written(env.world(Writing(i - 1), MadeDir(env, items, d, i - 1)), env.ids(i - 1), items[i - 1].bytes)
  }

  /** The directory when the i-th file is to be created, and right after that. */
  function OpenDir(env: Env, items: seq<Item>, d: Dir, i: nat): Dir
    requires i < |items|
    decreases i, 1
  {
    env.world(Opening(i), FillDir(env, items, d, i))
  }

  function MadeDir(env: Env, items: seq<Item>, d: Dir, i: nat): Dir
    requires i < |items|
    decreases i, 2
  {
    OpenDir(env, items, d, i)[items[i].name := New(env, i)]
  }

  predicate Opens(env: Env, items: seq<Item>, d: Dir, i: nat)
    requires i < |items|
  {
    !env.openFails(i) && items[i].name !in OpenDir(env, items, d, i)
  }

  predicate Goes(env: Env, items: seq<Item>, d: Dir, i: nat)
    requires i < |items|
  {
    Opens(env, items, d, i) && !env.noteFails(i) && !env.writeFails(i)
  }

  /** The first item from the i-th on that does not go well, or the number of items. */
  function FirstBad(env: Env, items: seq<Item>, d: Dir, i: nat): (f: nat)
    requires i <= |items|
    ensures i <= f <= |items| && (forall j | i <= j < f :: Goes(env, items, d, j))
    ensures f < |items| ==> !Goes(env, items, d, f)
    decreases |items| - i
  {
    if i < |items| && Goes(env, items, d, i) then FirstBad(env, items, d, i + 1) else i
  }

  /** The directory when the i-th item failed. */
  function FailDir(env: Env, items: seq<Item>, d: Dir, i: nat): Dir
    requires i < |items|
  {
    if !Opens(env, items, d, i) then OpenDir(env, items, d, i)
    else if env.noteFails(i) then MadeDir(env, items, d, i)
    else env.world(Writing(i), MadeDir(env, items, d, i))
  }

  function Note(env: Env, items: seq<Item>, i: nat): Created
    requires i < |items|
  {
    Created(items[i].name, env.ids(i))
  }

  function Notes(env: Env, items: seq<Item>, i: nat): (r: seq<Created>)
    requires i <= |items|
    ensures |r| == i && forall j | 0 <= j < i :: r[j] == Note(env, items, j)
  {
    seq(i, j requires 0 <= j < i => Note(env, items, j))
  }

  /** What the program has noted when the i-th item failed. */
  function NotedAt(env: Env, items: seq<Item>, d: Dir, i: nat): seq<Created>
    requires i < |items|
  {
    Notes(env, items, if Opens(env, items, d, i) && !env.noteFails(i) then i + 1 else i)
  }

  /** The file that it created then and did not note. */
  predicate Stray(env: Env, items: seq<Item>, d: Dir, i: nat)
    requires i < |items|
  {
    Opens(env, items, d, i) && env.noteFails(i)
  }

  // The handler

  predicate Shows(dir: Dir, c: Created) {
    c.name in dir && dir[c.name].regular && dir[c.name].id == c.id
  }

  /** The directory before the k-th turn of the handler, if no earlier one raised. */
  function TurnDir(env: Env, created: seq<Created>, d: Dir, k: nat): Dir
    requires k <= |created|
    decreases k, 0
  {
    if k == 0 then d
    else
      var look := LookDir(env, created, d, k - 1);
      if Shows(look, created[k - 1]) then env.world(Unlinking(k - 1), look) - {created[k - 1].name} else look
  }

  function LookDir(env: Env, created: seq<Created>, d: Dir, k: nat): Dir
    requires k < |created|
    decreases k, 1
  {
    env.world(Looking(k), TurnDir(env, created, d, k))
  }

  /** The look found the identity, and at the removal the name is gone. */
  predicate Vanishes(env: Env, created: seq<Created>, d: Dir, k: nat)
    requires k < |created|
  {
    var look := LookDir(env, created, d, k);
    Shows(look, created[k]) && created[k].name !in env.world(Unlinking(k), look)
  }

  predicate Raises(env: Env, created: seq<Created>, d: Dir, k: nat)
    requires k < |created|
  {
    env.undoFails(k) || Vanishes(env, created, d, k)
  }

  function FirstRaise(env: Env, created: seq<Created>, d: Dir, k: nat): (r: nat)
    requires k <= |created|
    ensures k <= r <= |created| && (forall j | k <= j < r :: !Raises(env, created, d, j))
    ensures r < |created| ==> Raises(env, created, d, r)
    decreases |created| - k
  {
    if k < |created| && !Raises(env, created, d, k) then FirstRaise(env, created, d, k + 1) else k
  }

  /** The directory that the handler leaves. */
  function UndoneDir(env: Env, created: seq<Created>, d: Dir): Dir {
    var k := FirstRaise(env, created, d, 0);
    if k == |created| || env.undoFails(k) then TurnDir(env, created, d, k)
    else env.world(Unlinking(k), LookDir(env, created, d, k))
  }

  /** What the first turns removed. */
  function RemovalsTo(env: Env, created: seq<Created>, d: Dir, k: nat): seq<Removal>
    requires k <= |created|
  {
    if k == 0 then []
    else RemovalsTo(env, created, d, k - 1) + RemovalsAt(env, created, d, k - 1)
  }

  function RemovalsAt(env: Env, created: seq<Created>, d: Dir, k: nat): seq<Removal>
    requires k < |created|
  {
    var name, look := created[k].name, LookDir(env, created, d, k);
    var found := env.world(Unlinking(k), look);
    if Shows(look, created[k]) && name in found then [Removal(name, look[name], found[name])] else []
  }

  /** How a publication ends. */
  datatype End = End(ok: bool, raised: bool, dir: Dir, created: seq<Created>, removals: seq<Removal>)

  function Published(env: Env, items: seq<Item>, d: Dir): End {
    var f := FirstBad(env, items, d, 0);
    if f == |items| then End(true, false, FillDir(env, items, d, f), Notes(env, items, f), [])
    else
      var created, failed := NotedAt(env, items, d, f), FailDir(env, items, d, f);
      var k := FirstRaise(env, created, failed, 0);
      End(false, k < |created|, UndoneDir(env, created, failed), created, RemovalsTo(env, created, failed, k))
  }

  // ---------------------------------------------------------------- whose files are there

  /** The other actor may do anything but put a file of ours where it was not. */
  ghost predicate LawfulWorld(world: (Moment, Dir) -> Dir) {
    forall m, d, n | n in world(m, d) && world(m, d)[n].ours :: n in d && d[n] == world(m, d)[n]
  }

  predicate NoneOurs(d: Dir) {
    forall n | n in d :: !d[n].ours
  }

  predicate Remembered(created: seq<Created>, from: nat, n: Name, id: nat) {
    exists j | from <= j < |created| :: created[j] == Created(n, id)
  }

  /** Every file of ours is in this list, from this place on. */
  predicate Tracks(dir: Dir, created: seq<Created>, from: nat) {
    forall n | n in dir && dir[n].ours :: dir[n].regular && Remembered(created, from, n, dir[n].id)
  }

  lemma WorldKeeps(env: Env, m: Moment, d: Dir, created: seq<Created>, k: nat)
    requires LawfulWorld(env.world) && Tracks(d, created, k)
    ensures Tracks(env.world(m, d), created, k)
  {
  }

  lemma MadeTracks(dir: Dir, created: seq<Created>, c: Created, file: File)
    requires Tracks(dir, created, 0) && file.regular && file.id == c.id
    ensures Tracks(dir[c.name := file], created + [c], 0)
  {
    var more := created + [c];
    assert more[|created|] == c;
    forall m, id | Remembered(created, 0, m, id) ensures Remembered(more, 0, m, id) {
      var j :| 0 <= j < |created| && created[j] == Created(m, id);
      assert more[j] == Created(m, id);
    }
  }

  lemma MadeFacts(env: Env, items: seq<Item>, d: Dir, i: nat)
    requires LawfulWorld(env.world) && i < |items| && Opens(env, items, d, i)
    requires Tracks(FillDir(env, items, d, i), Notes(env, items, i), 0)
    ensures Tracks(MadeDir(env, items, d, i), Notes(env, items, i + 1), 0)
  {
    WorldKeeps(env, Opening(i), FillDir(env, items, d, i), Notes(env, items, i), 0);
    MadeTracks(OpenDir(env, items, d, i), Notes(env, items, i), Note(env, items, i), New(env, i));
    assert Notes(env, items, i + 1) == Notes(env, items, i) + [Note(env, items, i)];
  }

  /** The program knows all files that it published so far and that are still there. */
  lemma {:induction false} FillFacts(env: Env, items: seq<Item>, d: Dir, i: nat)
    requires LawfulWorld(env.world) && NoneOurs(d) && i <= |items| && forall j | 0 <= j < i :: Goes(env, items, d, j)
    ensures Tracks(FillDir(env, items, d, i), Notes(env, items, i), 0)
  {
    if i > 0 {
      FillFacts(env, items, d, i - 1);
      assert Goes(env, items, d, i - 1);
      MadeFacts(env, items, d, i - 1);
      WorldKeeps(env, Writing(i - 1), MadeDir(env, items, d, i - 1), Notes(env, items, i), 0);
    }
  }

  /** The files of ours at a failure: the noted ones, and one that was not if the exception came in between. */
  function AllAt(env: Env, items: seq<Item>, d: Dir, i: nat): seq<Created>
    requires i < |items|
  {
    NotedAt(env, items, d, i) + if Stray(env, items, d, i) then [Note(env, items, i)] else []
  }

  lemma FailFacts(env: Env, items: seq<Item>, d: Dir, i: nat)
    requires LawfulWorld(env.world) && NoneOurs(d) && i < |items| && forall j | 0 <= j < i :: Goes(env, items, d, j)
    ensures Tracks(FailDir(env, items, d, i), AllAt(env, items, d, i), 0)
  {
    FillFacts(env, items, d, i);
    var notes := Notes(env, items, i);
    if Opens(env, items, d, i) {
      MadeFacts(env, items, d, i);
      assert Notes(env, items, i + 1) == notes + [Note(env, items, i)];
      assert AllAt(env, items, d, i) == Notes(env, items, i + 1);
      WorldKeeps(env, Writing(i), MadeDir(env, items, d, i), Notes(env, items, i + 1), 0);
    } else {
      assert AllAt(env, items, d, i) == notes;
      WorldKeeps(env, Opening(i), FillDir(env, items, d, i), notes, 0);
    }
  }

  /** A turn is over when its name no longer shows its identity. */
  lemma Settled(dir: Dir, all: seq<Created>, k: nat)
    requires k < |all| && Tracks(dir, all, k) && !Shows(dir, all[k])
    ensures Tracks(dir, all, k + 1)
  {
    forall n | n in dir && dir[n].ours ensures Remembered(all, k + 1, n, dir[n].id) {
      var j :| k <= j < |all| && all[j] == Created(n, dir[n].id);
      assert j != k;
    }
  }

  /** The handler's turns, as long as none raises, clear one noted file after another. */
  lemma {:induction false} TurnFacts(env: Env, created: seq<Created>, all: seq<Created>, d: Dir, k: nat)
    requires LawfulWorld(env.world) && created <= all && Tracks(d, all, 0) && k <= |created|
    ensures Tracks(TurnDir(env, created, d, k), all, k)
  {
    if k > 0 {
      TurnFacts(env, created, all, d, k - 1);
      var look := LookDir(env, created, d, k - 1);
      WorldKeeps(env, Looking(k - 1), TurnDir(env, created, d, k - 1), all, k - 1);
      if Shows(look, created[k - 1]) {
        WorldKeeps(env, Unlinking(k - 1), look, all, k - 1);
      }
      Settled(TurnDir(env, created, d, k), all, k - 1);
    }
  }

  /** What of ours can stay after any failure, whatever the other actor does: from the turn on that raised, the files
      that were noted, and one that was never noted. */
  lemma WhatStays(env: Env, items: seq<Item>, d: Dir)
    requires LawfulWorld(env.world) && NoneOurs(d) && !Published(env, items, d).ok
    ensures var e, f := Published(env, items, d), FirstBad(env, items, d, 0);
            f < |items| && Tracks(e.dir, AllAt(env, items, d, f), FirstRaise(env, e.created, FailDir(env, items, d, f), 0))
  {
    var f := FirstBad(env, items, d, 0);
    var created, all, failed := NotedAt(env, items, d, f), AllAt(env, items, d, f), FailDir(env, items, d, f);
    var k := FirstRaise(env, created, failed, 0);
    FailFacts(env, items, d, f);
    TurnFacts(env, created, all, failed, k);
    if k < |created| {
      WorldKeeps(env, Looking(k), TurnDir(env, created, failed, k), all, k);
      WorldKeeps(env, Unlinking(k), LookDir(env, created, failed, k), all, k);
    }
  }

  /** After a failure whose handler does not raise nothing of ours is left but a file that was never noted. */
  lemma NothingLeft(env: Env, items: seq<Item>, d: Dir)
    requires LawfulWorld(env.world) && NoneOurs(d)
    requires !Published(env, items, d).ok && !Published(env, items, d).raised
    ensures var e, f := Published(env, items, d), FirstBad(env, items, d, 0);
            forall n | n in e.dir && e.dir[n].ours :: Stray(env, items, d, f) && Created(n, e.dir[n].id) == Note(env, items, f)
  {
    WhatStays(env, items, d);
  }

  /** The handler raises exactly at a turn with an exception of its own, or whose file vanishes behind its look. */
  lemma RaisedExactly(env: Env, items: seq<Item>, d: Dir)
    requires !Published(env, items, d).ok
    ensures var e, f := Published(env, items, d), FirstBad(env, items, d, 0);
            && f < |items|
            && (e.raised <==>
                  exists k | 0 <= k < |e.created| ::
                    env.undoFails(k) || VanishesBehind(env, LookDir(env, e.created, FailDir(env, items, d, f), k), e.created[k], k))
  {
    var e, f := Published(env, items, d), FirstBad(env, items, d, 0);
    assert forall k | 0 <= k < |e.created| :: Raises(env, e.created, FailDir(env, items, d, f), k) <==>
      env.undoFails(k) || VanishesBehind(env, LookDir(env, e.created, FailDir(env, items, d, f), k), e.created[k], k);
  }

  /** The look showed a regular file of the noted identity under its name, and at the removal nothing bears the name. */
  predicate VanishesBehind(env: Env, look: Dir, c: Created, k: nat) {
    && c.name in look && look[c.name].regular && look[c.name].id == c.id
    && c.name !in env.world(Unlinking(k), look)
  }

  /** A turn that does not raise removes nothing, or exactly the file that then bears the noted name, and notes it; it
      does so only if the look showed a regular file of the noted identity. */
  lemma TurnRemoves(env: Env, created: seq<Created>, d: Dir, k: nat)
    requires k < |created| && !Raises(env, created, d, k)
    ensures var c, look := created[k], LookDir(env, created, d, k);
            var found := env.world(Unlinking(k), look);
            && look == env.world(Looking(k), TurnDir(env, created, d, k))
            && (if c.name in look && look[c.name].regular && look[c.name].id == c.id
                then c.name in found && TurnDir(env, created, d, k + 1) == found - {c.name}
                     && RemovalsAt(env, created, d, k) == [Removal(c.name, look[c.name], found[c.name])]
                else TurnDir(env, created, d, k + 1) == look && RemovalsAt(env, created, d, k) == [])
  {
  }

  /** The removals of a run are those of its turns. */
  lemma {:induction false} RemovalsExactly(env: Env, created: seq<Created>, d: Dir, k: nat, r: Removal)
    requires k <= |created|
    ensures r in RemovalsTo(env, created, d, k) <==> exists j | 0 <= j < k :: r in RemovalsAt(env, created, d, j)
  {
    if k > 0 {
      RemovalsExactly(env, created, d, k - 1, r);
    }
  }

  /** A success has no handler: nothing is removed, and every file was noted. */
  lemma SuccessIsQuiet(env: Env, items: seq<Item>, d: Dir)
    requires Published(env, items, d).ok
    ensures var e := Published(env, items, d);
            !e.raised && e.removals == [] && |e.created| == |items|
            && forall i | 0 <= i < |items| :: e.created[i] == Created(items[i].name, env.ids(i))
  {
  }

  // ---------------------------------------------------------------- what is published

  /** As long as all goes well the system gives a new file no identity that a file of ours in the directory has. */
  ghost predicate NewIds(env: Env, items: seq<Item>, d: Dir) {
    forall i, n | 0 <= i < |items| && i <= FirstBad(env, items, d, 0)
                  && n in OpenDir(env, items, d, i) && OpenDir(env, items, d, i)[n].ours ::
      OpenDir(env, items, d, i)[n].id != env.ids(i)
  }

  predicate CopyOf(item: Item, n: Name, file: File) {
    n == item.name && file.bytes == item.bytes
  }

  /** The files of ours that are there are exact copies of the first items under their names. */
  predicate Exact(dir: Dir, items: seq<Item>, k: nat)
    requires k <= |items|
  {
    forall n | n in dir && dir[n].ours :: exists j :: 0 <= j < k && CopyOf(items[j], n, dir[n])
  }

  /** The same but for the newest one, which alone has this identity. */
  predicate ExactBut(dir: Dir, items: seq<Item>, k: nat, id: nat)
    requires k < |items|
  {
    forall n | n in dir && dir[n].ours ::
      if dir[n].id == id then n == items[k].name else exists j :: 0 <= j < k && CopyOf(items[j], n, dir[n])
  }

  lemma WrittenExact(dir: Dir, items: seq<Item>, k: nat, id: nat)
    requires k < |items| && ExactBut(dir, items, k, id)
    ensures Exact(Written(dir, id, items[k].bytes), items, k + 1)
  {
    var after := Written(dir, id, items[k].bytes);
    forall n | n in after && after[n].ours ensures exists j :: 0 <= j < k + 1 && CopyOf(items[j], n, after[n]) {
      if dir[n].id == id {
        assert CopyOf(items[k], n, after[n]);
      }
    }
  }

  lemma {:induction false} FillExact(env: Env, items: seq<Item>, d: Dir, i: nat)
    requires LawfulWorld(env.world) && NewIds(env, items, d) && NoneOurs(d) && i <= FirstBad(env, items, d, 0)
    ensures Exact(FillDir(env, items, d, i), items, i)
  {
    if i > 0 {
      FillExact(env, items, d, i - 1);
      var k := i - 1;
      assert Exact(OpenDir(env, items, d, k), items, k);
      assert ExactBut(MadeDir(env, items, d, k), items, k, env.ids(k));
      assert ExactBut(env.world(Writing(k), MadeDir(env, items, d, k)), items, k, env.ids(k));
      WrittenExact(env.world(Writing(k), MadeDir(env, items, d, k)), items, k, env.ids(k));
    }
  }

  /** After a success the files of ours that are still there are exact copies under the right names. */
  lemma ExactCopies(env: Env, items: seq<Item>, d: Dir)
    requires LawfulWorld(env.world) && NewIds(env, items, d) && NoneOurs(d) && Published(env, items, d).ok
    ensures var e := Published(env, items, d);
            forall n | n in e.dir && e.dir[n].ours :: exists i | 0 <= i < |items| :: n == items[i].name && e.dir[n].bytes == items[i].bytes
  {
    FillExact(env, items, d, |items|);
    var e := Published(env, items, d);
    forall n | n in e.dir && e.dir[n].ours
      ensures exists i | 0 <= i < |items| :: n == items[i].name && e.dir[n].bytes == items[i].bytes
    {
      var i :| 0 <= i < |items| && CopyOf(items[i], n, e.dir[n]);
    }
  }

  // ---------------------------------------------------------------- what others lose

  /** No file of another has the identity of one of ours. */
  ghost predicate Clean(ids: nat -> nat, d: Dir) {
    forall n, i | n in d && d[n].id == ids(i) :: d[n].ours
  }

  /** Identities of our files are not given to files of others during the run. */
  ghost predicate NoReuse(env: Env) {
    forall m, d | Clean(env.ids, d) :: Clean(env.ids, env.world(m, d))
  }

  lemma {:induction false} CleanFill(env: Env, items: seq<Item>, d: Dir, i: nat)
    requires NoReuse(env) && Clean(env.ids, d) && i <= |items|
    ensures Clean(env.ids, FillDir(env, items, d, i))
    ensures i < |items| ==> Clean(env.ids, FailDir(env, items, d, i))
  {
    if i > 0 {
      CleanFill(env, items, d, i - 1);
      assert Clean(env.ids, OpenDir(env, items, d, i - 1));
      assert Clean(env.ids, MadeDir(env, items, d, i - 1));
      assert Clean(env.ids, env.world(Writing(i - 1), MadeDir(env, items, d, i - 1)));
    }
    if i < |items| {
      assert Clean(env.ids, OpenDir(env, items, d, i));
      assert Clean(env.ids, MadeDir(env, items, d, i));
    }
  }

  lemma {:induction false} CleanTurn(env: Env, created: seq<Created>, d: Dir, k: nat)
    requires NoReuse(env) && Clean(env.ids, d) && k <= |created|
    ensures Clean(env.ids, TurnDir(env, created, d, k))
    ensures k < |created| ==> Clean(env.ids, LookDir(env, created, d, k))
  {
    if k > 0 {
      CleanTurn(env, created, d, k - 1);
    }
  }

  lemma {:induction false} RemovalOf(env: Env, created: seq<Created>, d: Dir, k: nat, r: Removal) returns (j: nat)
    requires k <= |created| && r in RemovalsTo(env, created, d, k)
    ensures j < k && RemovalsAt(env, created, d, j) == [r]
  {
    if r in RemovalsAt(env, created, d, k - 1) {
      j := k - 1;
    } else {
      j := RemovalOf(env, created, d, k - 1, r);
    }
  }

  lemma LookIsOurs(env: Env, items: seq<Item>, d: Dir, f: nat, created: seq<Created>, failed: Dir, j: nat)
    requires Clean(env.ids, d) && NoReuse(env) && f < |items| && failed == FailDir(env, items, d, f)
    requires j < |created| <= |items| && created[j] == Note(env, items, j) && Shows(LookDir(env, created, failed, j), created[j])
    ensures LookDir(env, created, failed, j)[created[j].name].ours
  {
    CleanFill(env, items, d, f);
    CleanTurn(env, created, failed, j);
  }

  /** A removal takes a file of another exactly if it was put in place behind the look, or the look took it for
      ours; and the look does that only for an identity that was used again. */
  lemma TakenFromOthers(env: Env, items: seq<Item>, d: Dir, r: Removal)
    requires LawfulWorld(env.world) && r in Published(env, items, d).removals
    ensures !r.taken.ours <==> r.taken != r.seen || !r.seen.ours
    ensures Clean(env.ids, d) && NoReuse(env) ==> r.seen.ours
  {
    var e, f := Published(env, items, d), FirstBad(env, items, d, 0);
    var failed := FailDir(env, items, d, f);
    var j := RemovalOf(env, e.created, failed, FirstRaise(env, e.created, failed, 0), r);
    TakenAt(env, e.created, failed, j, r);
    if Clean(env.ids, d) && NoReuse(env) {
      LookIsOurs(env, items, d, f, e.created, failed, j);
    }
  }

  lemma TakenAt(env: Env, created: seq<Created>, d: Dir, j: nat, r: Removal)
    requires LawfulWorld(env.world) && j < |created| && RemovalsAt(env, created, d, j) == [r]
    ensures !r.taken.ours <==> r.taken != r.seen || !r.seen.ours
    ensures Shows(LookDir(env, created, d, j), created[j]) && r.seen == LookDir(env, created, d, j)[created[j].name]
  {
  }

  // ---------------------------------------------------------------- nobody else there

  ghost predicate Quiet(env: Env) {
    forall m, d :: env.world(m, d) == d
  }

  /** With nobody else there every hypothesis about the other actor holds. */
  lemma QuietIsHarmless(env: Env)
    requires Quiet(env)
    ensures LawfulWorld(env.world) && NoReuse(env) && Clean(env.ids, map[])
  {
  }

  function Copy(env: Env, items: seq<Item>, i: nat): File
    requires i < |items|
  {
    File(env.ids(i), true, items[i].bytes, true)
  }

  /** The directory with the first items added. */
  function Extended(env: Env, items: seq<Item>, d: Dir, i: nat): Dir
    requires i <= |items|
  {
    if i == 0 then d else Extended(env, items, d, i - 1)[items[i - 1].name := Copy(env, items, i - 1)]
  }

  /** The i-th name is neither in the directory nor an earlier item's. */
  predicate Free(d: Dir, items: seq<Item>, i: nat)
    requires i < |items|
  {
    items[i].name !in d && forall j | 0 <= j < i :: items[j].name != items[i].name
  }

  predicate AllFree(d: Dir, items: seq<Item>, i: nat)
    requires i <= |items|
  {
    forall j | 0 <= j < i :: Free(d, items, j)
  }

  lemma {:induction false} ExtendedFacts(env: Env, items: seq<Item>, d: Dir, i: nat)
    requires i <= |items| && AllFree(d, items, i)
    ensures var x := Extended(env, items, d, i);
            && (forall n | n in d :: n in x && x[n] == d[n])
            && (forall j | 0 <= j < i :: items[j].name in x && x[items[j].name] == Copy(env, items, j))
            && (forall n | n in x :: n in d || exists j :: 0 <= j < i && n == items[j].name)
  {
    if i > 0 {
      ExtendedFacts(env, items, d, i - 1);
      assert Free(d, items, i - 1);
    }
  }

  lemma FreeExtended(env: Env, items: seq<Item>, d: Dir, i: nat)
    requires i < |items| && AllFree(d, items, i)
    ensures items[i].name !in Extended(env, items, d, i) <==> Free(d, items, i)
  {
    ExtendedFacts(env, items, d, i);
  }

  /** Writing the new file makes it the copy and leaves the others. */
  lemma WrittenNew(env: Env, items: seq<Item>, d: Dir, i: nat)
    requires NoneOurs(d) && i < |items| && AllFree(d, items, i + 1) && forall j | 0 <= j < i :: env.ids(j) != env.ids(i)
    ensures Written(Extended(env, items, d, i)[items[i].name := New(env, i)], env.ids(i), items[i].bytes) == Extended(env, items, d, i + 1)
  {
    assert Free(d, items, i);
    ExtendedFacts(env, items, d, i);
    var x := Extended(env, items, d, i);
    forall n | n in x && n != items[i].name ensures !(x[n].ours && x[n].id == env.ids(i)) {
      if n !in d {
        var j :| 0 <= j < i && n == items[j].name;
      }
    }
  }

  /** The i-th item goes well exactly when its name is free and nothing fails. */
  predicate GoesAlone(env: Env, items: seq<Item>, d: Dir, i: nat)
    requires i < |items|
  {
    Free(d, items, i) && !env.openFails(i) && !env.noteFails(i) && !env.writeFails(i)
  }

  /** Alone, all earlier files are still there, so the next one has another identity. */
  lemma NextIsNew(env: Env, items: seq<Item>, d: Dir, i: nat)
    requires Quiet(env) && NewIds(env, items, d) && i < |items| && i <= FirstBad(env, items, d, 0) && AllFree(d, items, i)
    requires FillDir(env, items, d, i) == Extended(env, items, d, i)
    ensures forall j | 0 <= j < i :: env.ids(j) != env.ids(i)
  {
    ExtendedFacts(env, items, d, i);
    forall j | 0 <= j < i ensures env.ids(j) != env.ids(i) {
      assert OpenDir(env, items, d, i)[items[j].name] == Copy(env, items, j);
    }
  }

  lemma AllFreeAlone(env: Env, items: seq<Item>, d: Dir, i: nat)
    requires i <= |items| && forall j | 0 <= j < i :: GoesAlone(env, items, d, j)
    ensures AllFree(d, items, i)
  {
    forall j | 0 <= j < i ensures Free(d, items, j) {
      assert GoesAlone(env, items, d, j);
    }
  }

  lemma {:induction false} FillExtends(env: Env, items: seq<Item>, d: Dir, i: nat)
    requires Quiet(env) && NewIds(env, items, d) && NoneOurs(d) && i <= FirstBad(env, items, d, 0)
    requires forall j | 0 <= j < i :: GoesAlone(env, items, d, j)
    ensures FillDir(env, items, d, i) == Extended(env, items, d, i)
  {
    if i > 0 {
      var k := i - 1;
      FillExtends(env, items, d, k);
      AllFreeAlone(env, items, d, i);
      assert Goes(env, items, d, k);
      assert OpenDir(env, items, d, k) == Extended(env, items, d, k);
      assert env.world(Writing(k), MadeDir(env, items, d, k)) == MadeDir(env, items, d, k);
      NextIsNew(env, items, d, i - 1);
      WrittenNew(env, items, d, i - 1);
    }
  }

  lemma FillAlone(env: Env, items: seq<Item>, d: Dir, i: nat)
    requires Quiet(env) && NewIds(env, items, d) && NoneOurs(d) && i <= FirstBad(env, items, d, 0)
    requires forall j | 0 <= j < i :: GoesAlone(env, items, d, j)
    ensures FillDir(env, items, d, i) == Extended(env, items, d, i)
    ensures i < |items| ==> (Goes(env, items, d, i) <==> GoesAlone(env, items, d, i))
  {
    FillExtends(env, items, d, i);
    if i < |items| {
      AllFreeAlone(env, items, d, i);
      FreeExtended(env, items, d, i);
    }
  }

  lemma {:induction false} FirstBadAlone(env: Env, items: seq<Item>, d: Dir, i: nat)
    requires Quiet(env) && NewIds(env, items, d) && NoneOurs(d) && i <= FirstBad(env, items, d, 0) == FirstBad(env, items, d, i)
    requires forall j | 0 <= j < i :: GoesAlone(env, items, d, j)
    ensures var f := FirstBad(env, items, d, i);
            (forall j | 0 <= j < f :: GoesAlone(env, items, d, j)) && (f < |items| ==> !GoesAlone(env, items, d, f))
    decreases |items| - i
  {
    FillAlone(env, items, d, i);
    if i < |items| && Goes(env, items, d, i) {
      FirstBadAlone(env, items, d, i + 1);
    }
  }

  /** A directory that holds the noted files, which all have names of their own. */
  predicate ShowsAll(x: Dir, created: seq<Created>) {
    && (forall j | 0 <= j < |created| :: Shows(x, created[j]))
    && (forall j, k | 0 <= j < k < |created| :: created[j].name != created[k].name)
  }

  function Without(x: Dir, created: seq<Created>, k: nat): Dir
    requires k <= |created|
  {
    map n | n in x && !Among(created, k, n) :: x[n]
  }

  /** The name of one of the first noted files. */
  predicate Among(created: seq<Created>, k: nat, n: Name)
    requires k <= |created|
  {
    exists j | 0 <= j < k :: created[j].name == n
  }

  lemma {:induction false} TurnsAlone(env: Env, created: seq<Created>, x: Dir, k: nat)
    requires Quiet(env) && ShowsAll(x, created) && k <= |created|
    ensures TurnDir(env, created, x, k) == Without(x, created, k)
    ensures k < |created| ==> !Vanishes(env, created, x, k)
  {
    if k > 0 {
      TurnsAlone(env, created, x, k - 1);
      assert Shows(Without(x, created, k - 1), created[k - 1]);
      assert Without(x, created, k) == Without(x, created, k - 1) - {created[k - 1].name};
    } else {
      assert Without(x, created, 0) == x;
    }
    if k < |created| {
      assert Shows(x, created[k]);
      assert Shows(Without(x, created, k), created[k]);
    }
  }

  lemma AmongNotes(env: Env, items: seq<Item>, i: nat, n: Name)
    requires i < |items|
    ensures Among(Notes(env, items, i + 1), i + 1, n) <==> Among(Notes(env, items, i), i, n) || n == items[i].name
  {
    assert forall j | 0 <= j < i :: Notes(env, items, i + 1)[j] == Notes(env, items, i)[j];
    assert Notes(env, items, i + 1)[i].name == items[i].name;
  }

  lemma WithoutNotes(env: Env, items: seq<Item>, d: Dir, i: nat)
    requires i <= |items| && AllFree(d, items, i)
    ensures Without(Extended(env, items, d, i), Notes(env, items, i), i) == d
  {
    ExtendedFacts(env, items, d, i);
    var x, notes := Extended(env, items, d, i), Notes(env, items, i);
    assert forall j | 0 <= j < i :: notes[j].name == items[j].name && Free(d, items, j);
  }

  lemma WithoutNotesBut(env: Env, items: seq<Item>, d: Dir, i: nat, file: File)
    requires i < |items| && AllFree(d, items, i) && Free(d, items, i)
    ensures var x := Extended(env, items, d, i)[items[i].name := file];
            Without(x, Notes(env, items, i), i) == d[items[i].name := file] && Without(x, Notes(env, items, i + 1), i + 1) == d
  {
    WithoutNotes(env, items, d, i);
    var x, name := Extended(env, items, d, i), items[i].name;
    assert !Among(Notes(env, items, i), i, name);
    assert Without(x[name := file], Notes(env, items, i), i) == Without(x, Notes(env, items, i), i)[name := file];
    forall n ensures Among(Notes(env, items, i + 1), i + 1, n) <==> Among(Notes(env, items, i), i, n) || n == name {
      AmongNotes(env, items, i, n);
    }
    assert name !in x by { FreeExtended(env, items, d, i); }
    assert Without(x[name := file], Notes(env, items, i + 1), i + 1) == Without(x, Notes(env, items, i), i);
  }

  lemma NamesApart(env: Env, items: seq<Item>, d: Dir, i: nat)
    requires i <= |items| && AllFree(d, items, i)
    ensures forall j, k | 0 <= j < k < i :: Notes(env, items, i)[j].name != Notes(env, items, i)[k].name
  {
    forall j, k | 0 <= j < k < i ensures items[j].name != items[k].name {
      assert Free(d, items, k);
    }
  }

  lemma NotesShown(env: Env, items: seq<Item>, d: Dir, i: nat)
    requires i <= |items| && AllFree(d, items, i)
    ensures ShowsAll(Extended(env, items, d, i), Notes(env, items, i))
    ensures i < |items| && Free(d, items, i) ==> ShowsAll(Extended(env, items, d, i)[items[i].name := New(env, i)], Notes(env, items, i))
  {
    ExtendedFacts(env, items, d, i);
    NamesApart(env, items, d, i);
    forall j | 0 <= j < i && i < |items| && Free(d, items, i) ensures items[j].name != items[i].name {
    }
  }

  /** The failing directory is the original one, the noted files and perhaps the one that was not noted. */
  lemma FailAlone(env: Env, items: seq<Item>, d: Dir, f: nat)
    requires Quiet(env) && NewIds(env, items, d) && NoneOurs(d) && f == FirstBad(env, items, d, 0) < |items|
    requires forall j | 0 <= j < f :: GoesAlone(env, items, d, j)
    ensures AllFree(d, items, f) && (Opens(env, items, d, f) <==> Free(d, items, f) && !env.openFails(f))
    ensures var x := Extended(env, items, d, f);
            FailDir(env, items, d, f) == if Opens(env, items, d, f) then x[items[f].name := New(env, f)] else x
  {
    FillAlone(env, items, d, f);
    forall j | 0 <= j < f ensures Free(d, items, j) {
      assert GoesAlone(env, items, d, j);
    }
    FreeExtended(env, items, d, f);
  }

  lemma FailShown(env: Env, items: seq<Item>, d: Dir, f: nat)
    requires Quiet(env) && NewIds(env, items, d) && NoneOurs(d) && f == FirstBad(env, items, d, 0) < |items|
    requires forall j | 0 <= j < f :: GoesAlone(env, items, d, j)
    ensures ShowsAll(FailDir(env, items, d, f), NotedAt(env, items, d, f))
    ensures var created := NotedAt(env, items, d, f);
            Without(FailDir(env, items, d, f), created, |created|) == if Stray(env, items, d, f) then d[items[f].name := New(env, f)] else d
  {
    FailAlone(env, items, d, f);
    if Opens(env, items, d, f) {
      WithoutNotesBut(env, items, d, f, New(env, f));
      if env.noteFails(f) {
        NotesShown(env, items, d, f);
      } else {
        NewShown(env, items, d, f);
      }
    } else {
      WithoutNotes(env, items, d, f);
      NotesShown(env, items, d, f);
    }
  }

  lemma NewShown(env: Env, items: seq<Item>, d: Dir, i: nat)
    requires i < |items| && AllFree(d, items, i) && Free(d, items, i)
    ensures ShowsAll(Extended(env, items, d, i)[items[i].name := New(env, i)], Notes(env, items, i + 1))
  {
    NotesShown(env, items, d, i);
    NamesApart(env, items, d, i + 1);
    var x, more := Extended(env, items, d, i)[items[i].name := New(env, i)], Notes(env, items, i + 1);
    forall j | 0 <= j < i + 1 ensures Shows(x, more[j]) {
      assert j < i ==> more[j] == Notes(env, items, i)[j];
    }
  }

  /** Alone, publication is all or nothing: it succeeds exactly when every name is free and nothing fails; a failure
      whose handler does not fail leaves the directory as it was, unless an exception came between the creation
      of a file and its note, and then exactly that empty file stays. */
  lemma Alone(env: Env, items: seq<Item>, d: Dir)
    requires Quiet(env) && NewIds(env, items, d) && NoneOurs(d)
    ensures var e, f := Published(env, items, d), FirstBad(env, items, d, 0);
            && (e.ok <==> forall i | 0 <= i < |items| :: GoesAlone(env, items, d, i))
            && (e.ok ==> e.dir == Extended(env, items, d, |items|))
            && (!e.ok ==> (e.raised <==> exists k :: 0 <= k < |e.created| && env.undoFails(k)))
            && (!e.ok && !e.raised ==>
                  e.dir == if Free(d, items, f) && !env.openFails(f) && env.noteFails(f) then d[items[f].name := New(env, f)] else d)
  {
    var e, f := Published(env, items, d), FirstBad(env, items, d, 0);
    FirstBadAlone(env, items, d, 0);
    FillAlone(env, items, d, f);
    if f < |items| {
      FailAlone(env, items, d, f);
      FailShown(env, items, d, f);
      var failed := FailDir(env, items, d, f);
      forall k | 0 <= k < |e.created| ensures Raises(env, e.created, failed, k) <==> env.undoFails(k) {
        TurnsAlone(env, e.created, failed, k);
      }
      TurnsAlone(env, e.created, failed, |e.created|);
    }
  }

  // ---------------------------------------------------------------- the program

  /** The files of others that a step changed or removed. */
  function Lost(before: Dir, after: Dir): set<File> {
    set n | n in before && !before[n].ours && (n !in after || after[n] != before[n]) :: before[n]
  }

  function Foreign(removals: seq<Removal>): set<File> {
    set r | r in removals && !r.taken.ours :: r.taken
  }

  lemma ForeignMore(removals: seq<Removal>, r: Removal)
    ensures Foreign(removals + [r]) == Foreign(removals) + if r.taken.ours then {} else {r.taken}
  {
  }

  lemma OwnStepsLoseNothing(dir: Dir, n: Name, file: File, id: nat, bytes: Bytes)
    ensures n !in dir ==> Lost(dir, dir[n := file]) == {}
    ensures Lost(dir, Written(dir, id, bytes)) == {}
  {
  }

  lemma RemovalLoses(dir: Dir, n: Name)
    requires n in dir
    ensures Lost(dir, dir - {n}) == if dir[n].ours then {} else {dir[n]}
  {
  }

  class Publication {
    const env: Env
    var dir: Dir
    var created: seq<Created>
    var removals: seq<Removal>
    /** What our own steps took from others. */
    ghost var lost: set<File>

    constructor (env: Env, dir: Dir)
      ensures this.env == env && this.dir == dir && created == [] && removals == [] && lost == {}
    {
      this.env, this.dir := env, dir;
      created, removals, lost := [], [], {};
    }

    method Let(m: Moment)
      modifies `dir
      ensures dir == env.world(m, old(dir))
    {
      dir := env.world(m, dir);
    }

    /** A step of our own. */
    method Own(next: Dir)
      modifies `dir, `lost
      ensures dir == next && lost == old(lost) + Lost(old(dir), next)
    {
      lost := lost + Lost(dir, next);
      dir := next;
    }

    /** Creates one file, notes it and writes it. */
    method Add(i: nat, items: seq<Item>, ghost d: Dir) returns (ok: bool)
      requires i < |items| && dir == FillDir(env, items, d, i) && created == Notes(env, items, i)
      modifies `dir, `created, `lost
      ensures ok == Goes(env, items, d, i) && lost == old(lost)
      ensures dir == if ok then FillDir(env, items, d, i + 1) else FailDir(env, items, d, i)
      ensures created == if ok then Notes(env, items, i + 1) else NotedAt(env, items, d, i)
    {
      var item := items[i];
      Let(Opening(i));
      ok := !env.openFails(i) && item.name !in dir;
      if ok {
        OwnStepsLoseNothing(dir, item.name, New(env, i), 0, []);
        Own(dir[item.name := New(env, i)]);
        ok := !env.noteFails(i);
      }
      if ok {
        created := created + [Created(item.name, env.ids(i))];
        assert created == Notes(env, items, i + 1);
        Let(Writing(i));
        ok := !env.writeFails(i);
      }
      if ok {
        OwnStepsLoseNothing(dir, item.name, New(env, i), env.ids(i), item.bytes);
        Own(Written(dir, env.ids(i), item.bytes));
      }
    }

    /** One turn of the handler. */
    method Undo(k: nat, ghost d: Dir) returns (raised: bool)
      requires k < |created| && dir == TurnDir(env, created, d, k)
      modifies `dir, `removals, `lost
      ensures raised == Raises(env, created, d, k)
      ensures !raised ==> dir == TurnDir(env, created, d, k + 1) && removals == old(removals) + RemovalsAt(env, created, d, k)
      ensures raised ==> removals == old(removals)
      ensures raised ==> dir == if env.undoFails(k) then TurnDir(env, created, d, k)
                                else env.world(Unlinking(k), LookDir(env, created, d, k))
      ensures old(lost == Foreign(removals)) ==> lost == Foreign(removals)
    {
      var c := created[k];
      raised := env.undoFails(k);
      if !raised {
        Let(Looking(k));
        if Shows(dir, c) {
          var current := dir[c.name];
          Let(Unlinking(k));
          raised := c.name !in dir;
          if !raised {
            RemovalLoses(dir, c.name);
            ForeignMore(removals, Removal(c.name, current, dir[c.name]));
            removals := removals + [Removal(c.name, current, dir[c.name])];
            Own(dir - {c.name});
          }
        }
      }
    }

    /** Publishes all items, or undoes in order what it noted; an exception of the handler ends that. Our own steps
        take nothing from others but what the removals take. */
    method Publish(items: seq<Item>) returns (ok: bool, raised: bool)
      requires created == [] && removals == [] && lost == {}
      modifies this
      ensures End(ok, raised, dir, created, removals) == Published(env, items, old(dir))
      ensures lost == Foreign(removals)
    {
      ghost var d := dir;
      ok, raised := true, false;
      var i := 0;
      while i < |items| && ok
        invariant i <= |items| && removals == [] && lost == {}
        invariant ok ==> (forall j | 0 <= j < i :: Goes(env, items, d, j)) && dir == FillDir(env, items, d, i) && created == Notes(env, items, i)
        invariant !ok ==> 0 < i && (forall j | 0 <= j < i - 1 :: Goes(env, items, d, j)) && !Goes(env, items, d, i - 1)
        invariant !ok ==> dir == FailDir(env, items, d, i - 1) && created == NotedAt(env, items, d, i - 1)
      {
        ok := Add(i, items, d);
        i := i + 1;
      }
      if ok {
        FirstBadIs(env, items, d, i);
      } else {
        FirstBadIs(env, items, d, i - 1);
        raised := Rollback();
      }
    }

    method Rollback() returns (raised: bool)
      requires removals == [] && lost == {}
      modifies `dir, `removals, `lost
      ensures var k := FirstRaise(env, created, old(dir), 0);
              raised == (k < |created|) && removals == RemovalsTo(env, created, old(dir), k)
      ensures dir == UndoneDir(env, created, old(dir)) && lost == Foreign(removals)
    {
      ghost var d := dir;
      raised := false;
      var k := 0;
      while k < |created| && !raised
        invariant k <= |created| && lost == Foreign(removals)
        invariant !raised ==> dir == TurnDir(env, created, d, k) && removals == RemovalsTo(env, created, d, k)
        invariant !raised ==> forall j | 0 <= j < k :: !Raises(env, created, d, j)
        invariant raised ==> 0 < k && (forall j | 0 <= j < k - 1 :: !Raises(env, created, d, j)) && Raises(env, created, d, k - 1)
        invariant raised ==> removals == RemovalsTo(env, created, d, k - 1)
        invariant raised ==> dir == if env.undoFails(k - 1) then TurnDir(env, created, d, k - 1)
                                    else env.world(Unlinking(k - 1), LookDir(env, created, d, k - 1))
      {
        raised := Undo(k, d);
        k := k + 1;
      }
      FirstRaiseIs(env, created, d, if raised then k - 1 else k);
    }

    /** Admits everything, then publishes: a source is `None` if it is not a regular file that can be read. */
    method Stage(names: seq<Name>, sources: seq<Option<Bytes>>) returns (admitted: bool, ok: bool, raised: bool)
      requires |names| == |sources| && created == [] && removals == [] && lost == {}
      modifies this
      ensures admitted <==> forall i | 0 <= i < |names| :: Admits(env, names, sources, old(dir), i)
      ensures !admitted ==> !ok && !raised && created == [] && removals == []
      ensures admitted ==>
                End(ok, raised, dir, created, removals) == Published(env, Items(names, sources), AdmitDir(env, old(dir), |names|))
      ensures lost == Foreign(removals)
    {
      ghost var d := dir;
      admitted, ok, raised := true, false, false;
      var prepared: seq<Item> := [];
      var i := 0;
      while i < |names| && admitted
        invariant i <= |names| && dir == AdmitDir(env, d, i) && created == [] && removals == [] && lost == {}
        invariant admitted ==> (forall j | 0 <= j < i :: Admits(env, names, sources, d, j)) && prepared == Items(names[..i], sources[..i])
        invariant !admitted ==> 0 < i && !Admits(env, names, sources, d, i - 1)
      {
        Let(Admitting(i));
        admitted := names[i] !in dir && sources[i].Some?;
        if admitted {
          assert names[..i + 1] == names[..i] + [names[i]] && sources[..i + 1] == sources[..i] + [sources[i]];
          prepared := prepared + [Item(names[i], sources[i].value)];
          assert prepared == Items(names[..i + 1], sources[..i + 1]);
        }
        i := i + 1;
      }
      if admitted {
        assert names[..i] == names && sources[..i] == sources;
        ok, raised := Publish(prepared);
      }
    }
  }

  lemma FirstBadIs(env: Env, items: seq<Item>, d: Dir, f: nat)
    requires f <= |items| && (forall j | 0 <= j < f :: Goes(env, items, d, j)) && (f < |items| ==> !Goes(env, items, d, f))
    ensures FirstBad(env, items, d, 0) == f
  {
    var g := FirstBad(env, items, d, 0);
  }

  lemma FirstRaiseIs(env: Env, created: seq<Created>, d: Dir, r: nat)
    requires r <= |created| && (forall j | 0 <= j < r :: !Raises(env, created, d, j)) && (r < |created| ==> Raises(env, created, d, r))
    ensures FirstRaise(env, created, d, 0) == r
  {
    var k := FirstRaise(env, created, d, 0);
  }

  /** The directory after some admissions, which only look at it. */
  function AdmitDir(env: Env, d: Dir, i: nat): Dir {
    if i == 0 then d else env.world(Admitting(i - 1), AdmitDir(env, d, i - 1))
  }

  predicate Admits(env: Env, names: seq<Name>, sources: seq<Option<Bytes>>, d: Dir, i: nat)
    requires i < |names| == |sources|
  {
    names[i] !in AdmitDir(env, d, i + 1) && sources[i].Some?
  }

  function Items(names: seq<Name>, sources: seq<Option<Bytes>>): seq<Item>
    requires |names| == |sources|
  {
    seq(|names|, i requires 0 <= i < |names| => Item(names[i], sources[i].GetOr([])))
  }

  lemma {:induction false} AdmitFacts(env: Env, d: Dir, i: nat)
    ensures LawfulWorld(env.world) && NoneOurs(d) ==> NoneOurs(AdmitDir(env, d, i))
    ensures NoReuse(env) && Clean(env.ids, d) ==> Clean(env.ids, AdmitDir(env, d, i))
    ensures Quiet(env) ==> AdmitDir(env, d, i) == d
  {
    if i > 0 {
      AdmitFacts(env, d, i - 1);
    }
  }

  // ---------------------------------------------------------------- runs that go wrong

  /** No identity is given out twice to files of ours. */
  ghost predicate DistinctIds(ids: nat -> nat) {
    forall i, j | 0 <= i < j :: ids(i) != ids(j)
  }

  ghost predicate Lawful(env: Env) {
    LawfulWorld(env.world) && DistinctIds(env.ids)
  }

  function Faultless(world: (Moment, Dir) -> Dir): Env {
    Env(world, i => i, _ => false, _ => false, _ => false, _ => false)
  }

  /** Another actor deletes the first file behind its look: the handler raises and the second file stays. */
  lemma StaysBehind(first: Item, second: Item)
    requires first.name != second.name
    ensures var world := (m: Moment, d: Dir) => if m == Unlinking(0) then d - {first.name} else d;
            var env := Faultless(world).(writeFails := i => i == 1);
            var e := Published(env, [first, second], map[]);
            Lawful(env) && !e.ok && e.raised && second.name in e.dir && e.dir[second.name].ours
  {
    var world := (m: Moment, d: Dir) => if m == Unlinking(0) then d - {first.name} else d;
    var env, items := Faultless(world).(writeFails := i => i == 1), [first, second];
    assert FillDir(env, items, map[], 0) == map[];
    assert Goes(env, items, map[], 0) && FillDir(env, items, map[], 1) == map[first.name := Copy(env, items, 0)];
    assert Opens(env, items, map[], 1) && !Goes(env, items, map[], 1);
    FirstBadIs(env, items, map[], 1);
    var created, failed := NotedAt(env, items, map[], 1), FailDir(env, items, map[], 1);
    assert failed == map[first.name := Copy(env, items, 0), second.name := New(env, 1)];
    assert TurnDir(env, created, failed, 0) == failed && LookDir(env, created, failed, 0) == failed;
    assert created[0] == Note(env, items, 0) && Vanishes(env, created, failed, 0);
    FirstRaiseIs(env, created, failed, 0);
  }

  /** The environment of one item whose writing fails. */
  lemma OneItem(env: Env, item: Item)
    requires env.writeFails(0) && !env.openFails(0) && !env.noteFails(0) && !env.undoFails(0)
    requires env.world(Opening(0), map[]) == map[]
    requires var mine := map[item.name := New(env, 0)]; env.world(Writing(0), mine) == mine
    ensures FirstBad(env, [item], map[], 0) == 0 && NotedAt(env, [item], map[], 0) == [Created(item.name, env.ids(0))]
    ensures FailDir(env, [item], map[], 0) == map[item.name := New(env, 0)]
  {
    assert FillDir(env, [item], map[], 0) == map[];
    FirstBadIs(env, [item], map[], 0);
    assert Notes(env, [item], 1) == [Created(item.name, env.ids(0))];
  }

  lemma OneTurn(env: Env, item: Item, e: End)
    requires env.writeFails(0) && !env.openFails(0) && !env.noteFails(0) && !env.undoFails(0)
    requires env.world(Opening(0), map[]) == map[]
    requires var mine := map[item.name := New(env, 0)]; env.world(Writing(0), mine) == mine
    requires var look := env.world(Looking(0), map[item.name := New(env, 0)]);
             Shows(look, Created(item.name, env.ids(0))) && item.name in env.world(Unlinking(0), look)
    requires e == Published(env, [item], map[])
    ensures var look := env.world(Looking(0), map[item.name := New(env, 0)]);
            e.removals == [Removal(item.name, look[item.name], env.world(Unlinking(0), look)[item.name])]
  {
    OneItem(env, item);
    var created, failed := [Created(item.name, env.ids(0))], map[item.name := New(env, 0)];
    assert TurnDir(env, created, failed, 0) == failed && !Vanishes(env, created, failed, 0);
    FirstRaiseIs(env, created, failed, 1);
    assert RemovalsTo(env, created, failed, 1) == RemovalsTo(env, created, failed, 0) + RemovalsAt(env, created, failed, 0);
  }

  /** The swap that the look does not see: another actor puts its own file in place of ours between the look and
      the removal, and loses it. Its file may have any identity. */
  lemma SwappedFile(item: Item, other: File)
    requires !other.ours
    ensures var world := (m: Moment, d: Dir) => if m == Unlinking(0) && item.name in d then d[item.name := other] else d;
            var env := Faultless(world).(writeFails := i => i == 0);
            Lawful(env) && Foreign(Published(env, [item], map[]).removals) == {other}
  {
    var world := (m: Moment, d: Dir) => if m == Unlinking(0) && item.name in d then d[item.name := other] else d;
    var env := Faultless(world).(writeFails := i => i == 0);
    var e := Published(env, [item], map[]);
    OneTurn(env, item, e);
    assert e.removals[0].taken == other;
  }

  /** The used identity that the look mistakes: another actor replaces our file before the look, and its own file
      is given the same identity. */
  lemma ReusedIdentity(item: Item, other: File)
    requires !other.ours && other.regular && other.id == 0
    ensures var world := (m: Moment, d: Dir) => if m == Looking(0) && item.name in d then d[item.name := other] else d;
            var env := Faultless(world).(writeFails := i => i == 0);
            Lawful(env) && Foreign(Published(env, [item], map[]).removals) == {other}
  {
    var world := (m: Moment, d: Dir) => if m == Looking(0) && item.name in d then d[item.name := other] else d;
    var env := Faultless(world).(writeFails := i => i == 0);
    var e := Published(env, [item], map[]);
    OneTurn(env, item, e);
    assert e.removals[0].taken == other;
  }

  /** An exception between the creation and the note: the empty file stays although nobody else was there. */
  lemma NotNoted(item: Item)
    ensures var env := Faultless((m: Moment, d: Dir) => d).(noteFails := i => i == 0);
            var e := Published(env, [item], map[]);
            Quiet(env) && Lawful(env) && !e.ok && !e.raised && e.dir == map[item.name := New(env, 0)]
  {
    var env := Faultless((m: Moment, d: Dir) => d).(noteFails := i => i == 0);
    Alone(env, [item], map[]);
    assert Free(map[], [item], 0) && !GoesAlone(env, [item], map[], 0);
  }
}
