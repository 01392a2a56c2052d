/** The shared tunnel registry: a name-keyed map of tunnel records that the
    window, the dialogs and the helper threads read and update. Every
    operation is one atomic step here; the lock that makes that so in the
    application has no counterpart in a sequential model. */
module Registry {
  import opened Wrappers
  import opened Models

  // ----- Specification functions -----

  /** The entry stored under `name`, if any. */
  function Lookup(m: map<string, SshTunnel>, name: string): (r: Option<SshTunnel>)
    ensures r.Some? <==> name in m
    ensures r.Some? ==> r.value == m[name]
  {
    if name in m then Some(m[name]) else None
  }

  /** The map after `SetActive(name, active)`: only an existing entry's
      `active` flag changes. */
  function WithActive(m: map<string, SshTunnel>, name: string, active: bool): (m': map<string, SshTunnel>)
    ensures m'.Keys == m.Keys
    ensures name in m ==> m'[name] == m[name].(active := active)
    ensures forall k :: k in m && k != name ==> m'[k] == m[k]
  {
    if name in m then m[name := m[name].(active := active)] else m
  }

  /** The map after `SetSshPid(name, pid)`: only an existing entry's
      `sshPid` changes. */
  function WithPid(m: map<string, SshTunnel>, name: string, pid: int): (m': map<string, SshTunnel>)
    ensures m'.Keys == m.Keys
    ensures name in m ==> m'[name] == m[name].(sshPid := pid)
    ensures forall k :: k in m && k != name ==> m'[k] == m[k]
  {
    if name in m then m[name := m[name].(sshPid := pid)] else m
  }

  /** `active` of the entry under `name`, false when there is none. */
  function ActiveOf(m: map<string, SshTunnel>, name: string): bool {
    name in m && m[name].active
  }

  /** `sshPid` of the entry under `name`, 0 when there is none. */
  function PidOf(m: map<string, SshTunnel>, name: string): int {
    if name in m then m[name].sshPid else 0
  }

  /** The map `SetBatch(ts)` builds: each tunnel stored under its own name,
      later tunnels replacing earlier ones with the same name. */
  function BatchMap(ts: seq<SshTunnel>): map<string, SshTunnel> {
    if ts == [] then map[]
    else BatchMap(ts[..|ts| - 1])[ts[|ts| - 1].name := ts[|ts| - 1]]
  }

  function NamesOf(ts: seq<SshTunnel>): set<string> {
    set i | 0 <= i < |ts| :: ts[i].name
  }

  /** The keys after a batch are exactly the names in the batch. */
  lemma {:induction false} BatchMapKeys(ts: seq<SshTunnel>)
    ensures BatchMap(ts).Keys == NamesOf(ts)
  {
    if ts != [] {
      var init := ts[..|ts| - 1];
      BatchMapKeys(init);
      assert NamesOf(ts) == NamesOf(init) + {ts[|ts| - 1].name} by {
        forall n | n in NamesOf(ts) ensures n in NamesOf(init) + {ts[|ts| - 1].name} {
          var i :| 0 <= i < |ts| && ts[i].name == n;
          if i < |ts| - 1 {
            assert init[i] == ts[i];
          }
        }
        forall n | n in NamesOf(init) ensures n in NamesOf(ts) {
          var i :| 0 <= i < |init| && init[i].name == n;
          assert ts[i] == init[i];
        }
      }
    }
  }

  /** Each key is mapped to the last tunnel in the batch with that name. */
  lemma {:induction false} BatchMapLast(ts: seq<SshTunnel>, name: string)
    requires name in BatchMap(ts)
    ensures exists i :: 0 <= i < |ts| && ts[i] == BatchMap(ts)[name] && ts[i].name == name
              && forall j :: i < j < |ts| ==> ts[j].name != name
  {
    var last := ts[|ts| - 1];
    var init := ts[..|ts| - 1];
    if last.name == name {
      assert ts[|ts| - 1] == BatchMap(ts)[name];
    } else {
      BatchMapLast(init, name);
      var i :| 0 <= i < |init| && init[i] == BatchMap(init)[name] && init[i].name == name
                && forall j :: i < j < |init| ==> init[j].name != name;
      assert ts[i] == init[i];
      forall j | i < j < |ts| ensures ts[j].name != name {
        if j < |ts| - 1 {
          assert ts[j] == init[j];
        }
      }
    }
  }

  /** The registry invariant the helper threads rely on: a recorded ssh
      process id belongs to an active tunnel. The setters do not enforce it. */
  predicate PidImpliesActive(m: map<string, SshTunnel>) {
    forall k :: k in m && m[k].sshPid != 0 ==> m[k].active
  }

  // ----- The registry object -----

  class GstmTunnels {
    var tunnels: map<string, SshTunnel>

    constructor()
      ensures tunnels == map[]
    {
      tunnels := map[];
    }

    /** `TryGet`: the entry under `name`, if any. */
    method TryGet(name: string) returns (r: Option<SshTunnel>)
      ensures r.Some? <==> name in tunnels
      ensures r.Some? ==> r.value == tunnels[name]
    {
      if name in tunnels {
        r := Some(tunnels[name]);
      } else {
        r := None;
      }
    }

    /** `Set`: insert or replace the entry under `name`. */
    method Set(name: string, tunnel: SshTunnel)
      modifies this
      ensures tunnels == old(tunnels)[name := tunnel]
      ensures name in tunnels && tunnels[name] == tunnel
      ensures forall k :: k != name ==> (k in tunnels <==> k in old(tunnels))
      ensures forall k :: k != name && k in tunnels ==> tunnels[k] == old(tunnels)[k]
    {
      tunnels := tunnels[name := tunnel];
    }

    /** `Remove`: true exactly when `name` was a key; it is gone afterwards. */
    method Remove(name: string) returns (removed: bool)
      modifies this
      ensures removed <==> name in old(tunnels)
      ensures tunnels == old(tunnels) - {name}
      ensures name !in tunnels
    {
      removed := name in tunnels;
      tunnels := tunnels - {name};
    }

    /** `Clear`: no entries remain. */
    method Clear()
      modifies this
      ensures tunnels == map[]
    {
      tunnels := map[];
    }

    /** `SetBatch`: clear, then store every tunnel under its name in order. */
    method SetBatch(ts: seq<SshTunnel>)
      modifies this
      ensures tunnels == BatchMap(ts)
    {
      tunnels := map[];
      var i := 0;
      while i < |ts|
        invariant 0 <= i <= |ts|
        invariant tunnels == BatchMap(ts[..i])
      {
        assert ts[..i + 1][..i] == ts[..i];
        tunnels := tunnels[ts[i].name := ts[i]];
        i := i + 1;
      }
      assert ts[..|ts|] == ts;
    }

    /** `GetSnapshot`: the stored tunnels as a list, one element per entry,
        in an order the dictionary does not specify. `keys` names the entry
        each element comes from. */
    method GetSnapshot() returns (snap: seq<SshTunnel>, ghost keys: seq<string>)
      ensures |snap| == |tunnels| && |keys| == |snap|
      ensures forall i :: 0 <= i < |snap| ==> keys[i] in tunnels && snap[i] == tunnels[keys[i]]
      ensures forall i, j :: 0 <= i < j < |keys| ==> keys[i] != keys[j]
      ensures forall k :: k in tunnels ==> tunnels[k] in snap
    {
      var remaining := tunnels.Keys;
      snap := [];
      keys := [];
      while remaining != {}
        invariant remaining <= tunnels.Keys
        invariant |keys| == |snap| && |snap| + |remaining| == |tunnels|
        invariant forall i :: 0 <= i < |snap| ==> keys[i] in tunnels && keys[i] !in remaining && snap[i] == tunnels[keys[i]]
        invariant forall i, j :: 0 <= i < j < |keys| ==> keys[i] != keys[j]
        invariant forall k :: k in tunnels && k !in remaining ==> tunnels[k] in snap
        decreases |remaining|
      {
        var k :| k in remaining;
        snap := snap + [tunnels[k]];
        keys := keys + [k];
        remaining := remaining - {k};
      }
    }

    /** `GetNames`: the set of keys. */
    method GetNames() returns (names: set<string>)
      ensures names == tunnels.Keys
    {
      names := tunnels.Keys;
    }

    /** `GetActive`: the entry's `active` flag, false for an unknown name. */
    method GetActive(name: string) returns (active: bool)
      ensures active <==> name in tunnels && tunnels[name].active
    {
      active := name in tunnels && tunnels[name].active;
    }

    /** `SetActive`: changes an existing entry's flag; no-op otherwise. */
    method SetActive(name: string, active: bool)
      modifies this
      ensures tunnels == WithActive(old(tunnels), name, active)
    {
      if name in tunnels {
        tunnels := tunnels[name := tunnels[name].(active := active)];
      }
    }

    /** `GetSshPid`: the entry's process id, 0 for an unknown name. */
    method GetSshPid(name: string) returns (pid: int)
      ensures name in tunnels ==> pid == tunnels[name].sshPid
      ensures name !in tunnels ==> pid == 0
    {
      if name in tunnels {
        pid := tunnels[name].sshPid;
      } else {
        pid := 0;
      }
    }

    /** `SetSshPid`: changes an existing entry's process id; no-op otherwise. */
    method SetSshPid(name: string, pid: int)
      modifies this
      ensures tunnels == WithPid(old(tunnels), name, pid)
    {
      if name in tunnels {
        tunnels := tunnels[name := tunnels[name].(sshPid := pid)];
      }
    }

    /** `ExecuteAtomic(action)`: the action's effect on the map, as one step. */
    method ExecuteAtomic(action: map<string, SshTunnel> -> map<string, SshTunnel>)
      modifies this
      ensures tunnels == action(old(tunnels))
    {
      tunnels := action(tunnels);
    }

    /** `ExecuteAtomic<T>(func)`: the function's effect on the map, as one
        step, returning exactly the function's result. */
    method ExecuteAtomicValue<T>(func: map<string, SshTunnel> -> (map<string, SshTunnel>, T)) returns (r: T)
      modifies this
      ensures tunnels == func(old(tunnels)).0
      ensures r == func(old(tunnels)).1
    {
      var (m, v) := func(tunnels);
      tunnels := m;
      r := v;
    }
  }

  // ----- Operation sequences and the pid invariant -----

  /** The registry's state-changing calls, as data. */
  datatype RegistryOp =
    | SetOp(name: string, tunnel: SshTunnel)
    | RemoveOp(name: string)
    | ClearOp
    | SetBatchOp(batch: seq<SshTunnel>)
    | SetActiveOp(name: string, active: bool)
    | SetSshPidOp(name: string, pid: int)

  /** The map after one call, as the methods above compute it. */
  function Apply(m: map<string, SshTunnel>, op: RegistryOp): map<string, SshTunnel> {
    match op
    case SetOp(name, t) => m[name := t]
    case RemoveOp(name) => m - {name}
    case ClearOp => map[]
    case SetBatchOp(ts) => BatchMap(ts)
    case SetActiveOp(name, a) => WithActive(m, name, a)
    case SetSshPidOp(name, p) => WithPid(m, name, p)
  }

  function ApplyAll(m: map<string, SshTunnel>, ops: seq<RegistryOp>): map<string, SshTunnel>
    decreases |ops|
  {
    if ops == [] then m else ApplyAll(Apply(m, ops[0]), ops[1..])
  }

  predicate Consistent(t: SshTunnel) {
    t.sshPid != 0 ==> t.active
  }

  /** A call made in a state where it cannot strand a process id on an
      inactive tunnel: stored records are consistent, a flag is cleared only
      once the pid is 0, and a pid is recorded only on an active tunnel. */
  predicate SafeIn(m: map<string, SshTunnel>, op: RegistryOp) {
    match op
    case SetOp(_, t) => Consistent(t)
    case RemoveOp(_) => true
    case ClearOp => true
    case SetBatchOp(ts) => forall i :: 0 <= i < |ts| ==> Consistent(ts[i])
    case SetActiveOp(name, a) => a || PidOf(m, name) == 0
    case SetSshPidOp(name, p) => p == 0 || ActiveOf(m, name) || name !in m
  }

  predicate SafeTrace(m: map<string, SshTunnel>, ops: seq<RegistryOp>)
    decreases |ops|
  {
    ops == [] || (SafeIn(m, ops[0]) && SafeTrace(Apply(m, ops[0]), ops[1..]))
  }

  /** One safe call keeps the invariant. */
  lemma ApplyPreserves(m: map<string, SshTunnel>, op: RegistryOp)
    requires PidImpliesActive(m) && SafeIn(m, op)
    ensures PidImpliesActive(Apply(m, op))
  {
    match op
    case SetBatchOp(ts) =>
      forall k | k in BatchMap(ts) && BatchMap(ts)[k].sshPid != 0
        ensures BatchMap(ts)[k].active
      {
        BatchMapLast(ts, k);
      }
    case _ =>
  }

  /** Every sequence of safe calls keeps the invariant. */
  lemma {:induction false} SafeTracePreserves(m: map<string, SshTunnel>, ops: seq<RegistryOp>)
    requires PidImpliesActive(m) && SafeTrace(m, ops)
    ensures PidImpliesActive(ApplyAll(m, ops))
    decreases |ops|
  {
    if ops != [] {
      ApplyPreserves(m, ops[0]);
      SafeTracePreserves(Apply(m, ops[0]), ops[1..]);
    }
  }

  /** Clearing the flag of a tunnel whose pid is still recorded breaks the
      invariant: `SetActive` does not guard against it. */
  lemma SetActiveCanBreakInvariant(t: SshTunnel)
    requires t.active && t.sshPid == 4242
    ensures PidImpliesActive(map["a" := t])
    ensures !PidImpliesActive(Apply(map["a" := t], SetActiveOp("a", false)))
  {
    var m' := Apply(map["a" := t], SetActiveOp("a", false));
    assert m'["a"].sshPid != 0 && !m'["a"].active;
  }

  /** Recording a pid on an inactive tunnel breaks the invariant:
      `SetSshPid` does not guard against it either. */
  lemma SetSshPidCanBreakInvariant(t: SshTunnel)
    requires !t.active && t.sshPid == 0
    ensures PidImpliesActive(map["a" := t])
    ensures !PidImpliesActive(Apply(map["a" := t], SetSshPidOp("a", 4242)))
  {
    var m' := Apply(map["a" := t], SetSshPidOp("a", 4242));
    assert m'["a"].sshPid != 0 && !m'["a"].active;
  }
}
