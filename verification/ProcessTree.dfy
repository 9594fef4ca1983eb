/** The processes that belong to an installation, told by their commands and their ancestors. */
module ProcessTree {

  import opened Sets

  type Pid = int

  datatype Row = Row(parent: Pid, command: string)

  type Rows = map<Pid, Row>

  datatype Role = RuntimeRole | Guard | ModelProvider | LlamaServer | Other

  /** A walk from a process to its parent, its parent's parent and so on. */
  predicate Lineage(rows: Rows, path: seq<Pid>) {
    path != [] && forall i | 0 < i < |path| :: Link(rows, path, i)
  }

  predicate Link(rows: Rows, path: seq<Pid>, i: nat)
    requires 0 < i < |path|
  {
    path[i - 1] in rows && rows[path[i - 1]].parent == path[i]
  }

  ghost predicate Descends(rows: Rows, pid: Pid, ancestor: Pid) {
    exists path :: Lineage(rows, path) && path[0] == pid && path[|path| - 1] == ancestor
  }

  /** The walk has come to `at` and can go on only from there. */
  ghost predicate Walked(rows: Rows, pid: Pid, runtime: Pid, at: Pid, visited: set<Pid>) {
    && Descends(rows, pid, at)
    && (pid in visited || pid == at)
    && visited <= rows.Keys && runtime !in visited
    && (forall p | p in visited :: rows[p].parent in visited || rows[p].parent == at)
  }

  lemma WalkedOn(rows: Rows, pid: Pid, runtime: Pid, at: Pid, visited: set<Pid>)
    requires Walked(rows, pid, runtime, at, visited) && at in rows && at != runtime
    ensures Walked(rows, pid, runtime, rows[at].parent, visited + {at})
  {
    var path :| Lineage(rows, path) && path[0] == pid && path[|path| - 1] == at;
    var longer := path + [rows[at].parent];
    assert forall i | 0 < i < |path| :: Link(rows, path, i) ==> Link(rows, longer, i);
    assert Lineage(rows, longer);
  }

  /** A walk that ended elsewhere, at a process that is not listed or on a cycle, never meets the Runtime. */
  lemma {:induction false} NeverMeets(rows: Rows, pid: Pid, runtime: Pid, at: Pid, visited: set<Pid>, path: seq<Pid>)
    requires Walked(rows, pid, runtime, at, visited) && (at !in rows || at in visited)
    requires Lineage(rows, path) && path[0] == pid
    ensures path[|path| - 1] in visited || path[|path| - 1] == at
  {
    if |path| > 1 {
      var front := path[..|path| - 1];
      assert forall i | 0 < i < |front| :: Link(rows, path, i) ==> Link(rows, front, i);
      NeverMeets(rows, pid, runtime, at, visited, front);
      assert Link(rows, path, |path| - 1);
      assert front[|front| - 1] == path[|path| - 1 - 1];
    }
  }

  /** Terminates on cyclic tables too: no process is visited twice. */
  method Ancestor(rows: Rows, pid: Pid, runtime: Pid) returns (at: Pid)
    ensures at == runtime <==> Descends(rows, pid, runtime)
  {
    at := pid;
    var visited: set<Pid> := {};
    assert Lineage(rows, [pid]);
    while at in rows && at !in visited && at != runtime
      invariant Walked(rows, pid, runtime, at, visited)
      decreases rows.Keys - visited
    {
      WalkedOn(rows, pid, runtime, at, visited);
      visited, at := visited + {at}, rows[at].parent;
    }
    if at != runtime && Descends(rows, pid, runtime) {
      var path :| Lineage(rows, path) && path[0] == pid && path[|path| - 1] == runtime;
      NeverMeets(rows, pid, runtime, at, visited, path);
    }
  }

  predicate Contains(s: string, part: string) {
    exists i | 0 <= i <= |s| :: part <= s[i..]
  }

  lemma ContainsExactly(s: string, part: string)
    ensures Contains(s, part) <==> exists before: string, after: string :: s == before + (part + after)
  {
    if i :| 0 <= i <= |s| && part <= s[i..] {
      assert s == s[..i] + (part + s[i + |part|..]);
    }
    if before: string, after: string :| s == before + (part + after) {
      assert s[|before|..] == part + after;
    }
  }

  predicate PathOwned(data: string, command: string) {
    data + "/bin/" <= command || data + "/libexec/" <= command
  }

  /** The Runtime process itself runs the installed program. */
  predicate RootOwned(rows: Rows, runtime: Pid, data: string) {
    runtime in rows && data + "/bin/elastos" <= rows[runtime].command
  }

  function RoleOf(pid: Pid, runtime: Pid, data: string, command: string): Role {
    if pid == runtime then RuntimeRole
    else if Contains(command, " --internal-local-llama-guard") then Guard
    else if data + "/bin/model-provider" <= command then ModelProvider
    else if Contains(command, "/llama-server") then LlamaServer
    else Other
  }

  /** The Runtime is told by its pid alone; a guard by its flag, whatever program it runs; then a provider by its
      program, and a server by a part of its command. */
  lemma RolesExactly(pid: Pid, runtime: Pid, data: string, command: string)
    ensures var role, guard := RoleOf(pid, runtime, data, command), Contains(command, " --internal-local-llama-guard");
            var provider := data + "/bin/model-provider" <= command;
            && (role == RuntimeRole <==> pid == runtime)
            && (role == Guard <==> pid != runtime && guard)
            && (role == ModelProvider <==> pid != runtime && !guard && provider)
            && (role == LlamaServer <==> pid != runtime && !guard && !provider && Contains(command, "/llama-server"))
  {
  }

  ghost predicate Owned(rows: Rows, runtime: Pid, data: string, pid: Pid) {
    && pid in rows
    && (|| data + "/bin/" <= rows[pid].command || data + "/libexec/" <= rows[pid].command
        || (runtime in rows && data + "/bin/elastos" <= rows[runtime].command && Descends(rows, pid, runtime)))
  }

  method OwnedProcesses(rows: Rows, runtime: Pid, data: string) returns (owned: map<Pid, Role>)
    ensures forall pid :: pid in owned <==> Owned(rows, runtime, data, pid)
    ensures forall pid | pid in owned :: pid in rows && owned[pid] == RoleOf(pid, runtime, data, rows[pid].command)
  {
    hide Descends, RoleOf;
    owned := map[];
    var pids := Listed(rows.Keys);
    var i := 0;
    while i < |pids|
      invariant i <= |pids|
      invariant forall pid :: pid in owned <==> pid in pids[..i] && Owned(rows, runtime, data, pid)
      invariant forall pid | pid in owned :: pid in rows && owned[pid] == RoleOf(pid, runtime, data, rows[pid].command)
    {
      var pid := pids[i];
      var at := Ancestor(rows, pid, runtime);
      if PathOwned(data, rows[pid].command) || (RootOwned(rows, runtime, data) && at == runtime) {
        owned := owned[pid := RoleOf(pid, runtime, data, rows[pid].command)];
      }
      assert pids[..i + 1] == pids[..i] + [pid];
      i := i + 1;
    }
    assert pids[..i] == pids;
  }

  /** All processes between an owned descendant and the Runtime are owned too: whole branches are selected. */
  lemma BranchesAreWhole(rows: Rows, runtime: Pid, data: string, path: seq<Pid>, i: nat)
    requires RootOwned(rows, runtime, data) && Lineage(rows, path) && path[|path| - 1] == runtime
    requires i < |path|
    ensures Owned(rows, runtime, data, path[i])
  {
    var rest := path[i..];
    forall j | 0 < j < |rest| ensures Link(rows, rest, j) {
      assert Link(rows, path, i + j);
    }
    assert Lineage(rows, rest) && rest[0] == path[i] && rest[|rest| - 1] == runtime;
    assert i + 1 < |path| ==> Link(rows, path, i + 1);
  }
}
