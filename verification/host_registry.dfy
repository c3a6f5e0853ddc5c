/**
 The registry of remote controllers: which hosts are known, which one is active, and the copies of both in
 the store. An operation writes the store one key at a time; a restarted process loads what it finds there.
 */
module HostRegistry {
  import opened Options

  const LOCAL := "local"

  datatype Host = Host(id: string, name: string, url: string, accessToken: Option<string>)

  datatype Registry = Registry(hosts: map<string, Host>, active: string)

  /** The persisted keys: one per host, and the active id once one was chosen. */
  datatype Disk = Disk(hosts: map<string, Host>, active: Option<string>)

  datatype Write = PutHost(host: Host) | DeleteHost(id: string) | PutActive(id: string)

  datatype Op =
    | Upsert(id: string, name: string, url: string, accessToken: Option<string>, setActive: bool)
    | Select(id: string)
    | Remove(id: string)

  predicate WellKeyed(hosts: map<string, Host>) {
    LOCAL !in hosts && forall id <- hosts :: hosts[id].id == id && id != ""
  }

  /** The active id names the local controller or a registered host. */
  predicate Consistent(r: Registry) {
    WellKeyed(r.hosts) && (r.active == LOCAL || r.active in r.hosts)
  }

  predicate Mirrors(d: Disk, r: Registry) {
    d.hosts == r.hosts && r.active == if d.active.Some? && d.active.value != "" then d.active.value else LOCAL
  }

  /** What start-up makes of the store. The active id is taken over as it is. */
  function Load(d: Disk): Registry {
    Registry(map id | id in d.hosts && id != "" && id != LOCAL :: d.hosts[id],
             if d.active.Some? && d.active.value != "" then d.active.value else LOCAL)
  }

  function Merged(r: Registry, op: Op): Host
    requires op.Upsert?
  {
    Host(op.id, op.name, op.url,
         if op.accessToken.Some? then op.accessToken else if op.id in r.hosts then r.hosts[op.id].accessToken else None)
  }

  function Apply(r: Registry, op: Op): Registry {
    match op
    case Upsert(id, _, _, _, setActive) => Registry(r.hosts[id := Merged(r, op)], if setActive then id else r.active)
    case Select(id) => if id == LOCAL || id in r.hosts then r.(active := id) else r
    case Remove(id) =>
      if id == LOCAL || id !in r.hosts then r else Registry(r.hosts - {id}, if r.active == id then LOCAL else r.active)
  }

  /** The store writes of an operation, in order. */
  function Writes(r: Registry, op: Op): seq<Write> {
    match op
    case Upsert(id, _, _, _, setActive) => [PutHost(Merged(r, op))] + if setActive then [PutActive(id)] else []
    case Select(id) => if id == LOCAL || id in r.hosts then [PutActive(id)] else []
    case Remove(id) =>
      if id == LOCAL || id !in r.hosts then [] else [DeleteHost(id)] + if r.active == id then [PutActive(LOCAL)] else []
  }

  function WriteOne(d: Disk, w: Write): Disk {
    match w
    case PutHost(host) => d.(hosts := d.hosts[host.id := host])
    case DeleteHost(id) => d.(hosts := d.hosts - {id})
    case PutActive(id) => d.(active := Some(id))
  }

  function WriteAll(d: Disk, ws: seq<Write>): Disk
    decreases ws
  {
    if ws == [] then d else WriteAll(WriteOne(d, ws[0]), ws[1..])
  }

  /** A host's id is never empty and never the local one. */
  predicate Admissible(op: Op) {
    op.Upsert? ==> op.id != "" && op.id != LOCAL
  }

  lemma FewWrites(d: Disk, ws: seq<Write>)
    ensures |ws| == 1 ==> WriteAll(d, ws) == WriteOne(d, ws[0])
    ensures |ws| == 2 ==> WriteAll(d, ws) == WriteOne(WriteOne(d, ws[0]), ws[1])
  {
    if |ws| == 2 {
      var rest := ws[1..];
      assert rest[1..] == [];
      assert WriteAll(WriteOne(d, ws[0]), rest) == WriteOne(WriteOne(d, ws[0]), rest[0]);
    }
  }

  /** A completed operation keeps the registry consistent and the store its exact copy. */
  lemma OperationKeepsMirror(r: Registry, d: Disk, op: Op)
    requires Consistent(r) && Mirrors(d, r) && Admissible(op)
    ensures Consistent(Apply(r, op)) && Mirrors(WriteAll(d, Writes(r, op)), Apply(r, op))
  {
    FewWrites(d, Writes(r, op));
  }

  function ApplyAll(r: Registry, ops: seq<Op>): Registry {
    if ops == [] then r else Apply(ApplyAll(r, ops[..|ops| - 1]), ops[|ops| - 1])
  }

  function DiskAfter(r: Registry, d: Disk, ops: seq<Op>): Disk {
    if ops == [] then d
    else WriteAll(DiskAfter(r, d, ops[..|ops| - 1]), Writes(ApplyAll(r, ops[..|ops| - 1]), ops[|ops| - 1]))
  }

  /** After any completed operations a restart restores exactly the registry that was lost. */
  lemma {:induction false} RestartRestores(r: Registry, d: Disk, ops: seq<Op>)
    requires Consistent(r) && Mirrors(d, r) && forall k :: 0 <= k < |ops| ==> Admissible(ops[k])
    ensures Consistent(ApplyAll(r, ops)) && Mirrors(DiskAfter(r, d, ops), ApplyAll(r, ops))
    ensures Load(DiskAfter(r, d, ops)) == ApplyAll(r, ops)
  {
    if ops != [] {
      var before := ops[..|ops| - 1];
      RestartRestores(r, d, before);
      OperationKeepsMirror(ApplyAll(r, before), DiskAfter(r, d, before), ops[|ops| - 1]);
    }
    var last := ApplyAll(r, ops);
    assert Load(DiskAfter(r, d, ops)).hosts == last.hosts;
  }

  /**
   A process that stops in the middle of an operation leaves a store from which a consistent registry is
   loaded, except exactly when it stops between the two writes that remove the active host.
   */
  lemma CrashIsHarmlessUnless(r: Registry, d: Disk, op: Op, k: nat)
    requires Consistent(r) && Mirrors(d, r) && Admissible(op) && k <= |Writes(r, op)|
    ensures Consistent(Load(WriteAll(d, Writes(r, op)[..k]))) <==>
            !(op.Remove? && op.id in r.hosts && r.active == op.id && k == 1)
  {
    var ws := Writes(r, op);
    if k == |ws| {
      assert ws[..k] == ws;
      OperationKeepsMirror(r, d, op);
    } else if k == 1 {
      FewWrites(d, ws[..1]);
    }
  }

  /** The active host is deleted and the process stops: what it loads names a host that is gone. */
  lemma CrashLosesActiveHost(host: Host)
    requires host.id != "" && host.id != LOCAL
    ensures var r := Registry(map[host.id := host], host.id);
            var left := Load(WriteAll(Disk(r.hosts, Some(host.id)), Writes(r, Remove(host.id))[..1]));
            left.hosts == map[] && left.active == host.id
  {
    var r := Registry(map[host.id := host], host.id);
    FewWrites(Disk(r.hosts, Some(host.id)), Writes(r, Remove(host.id))[..1]);
  }

  /** Who is active after a run: the latest host that was selected, or registered as active, and not removed since. */
  function ActiveAfter(r: Registry, ops: seq<Op>): string {
    if ops == [] then r.active
    else
      var before, op := ops[..|ops| - 1], ops[|ops| - 1];
      match op
      case Upsert(id, _, _, _, setActive) => if setActive then id else ActiveAfter(r, before)
      case Select(id) => if id == "local" || KnownAfter(r, before, id) then id else ActiveAfter(r, before)
      case Remove(id) => if id == ActiveAfter(r, before) then "local" else ActiveAfter(r, before)
  }

  /** A host is known if its latest registration was not followed by its removal. */
  predicate KnownAfter(r: Registry, ops: seq<Op>, id: string) {
    if ops == [] then id in r.hosts
    else
      var before, op := ops[..|ops| - 1], ops[|ops| - 1];
      if op.Upsert? && op.id == id then true
      else if op.Remove? && op.id == id then false
      else KnownAfter(r, before, id)
  }

  lemma {:induction false} RegistryFollowsRun(r: Registry, ops: seq<Op>, id: string)
    requires Consistent(r) && forall k :: 0 <= k < |ops| ==> Admissible(ops[k])
    ensures var s := ApplyAll(r, ops);
            WellKeyed(s.hosts) && (s.active == "local" || s.active in s.hosts)
            && (id in s.hosts <==> KnownAfter(r, ops, id)) && s.active == ActiveAfter(r, ops)
  {
    if ops != [] {
      var before, op := ops[..|ops| - 1], ops[|ops| - 1];
      RegistryFollowsRun(r, before, id);
      RegistryFollowsRun(r, before, op.id);
      RegistryFollowsRun(r, before, "local");
    }
  }

  /** The ids that the host list marks as active. */
  function MarkedActive(r: Registry): set<string> {
    set id | id in {LOCAL} + r.hosts.Keys && r.active == id
  }

  /** The list marks exactly one host active if and only if the active id is registered or local. */
  lemma OneHostMarkedIff(r: Registry)
    requires WellKeyed(r.hosts)
    ensures |MarkedActive(r)| == 1 <==> Consistent(r)
  {
    if Consistent(r) {
      assert MarkedActive(r) == {r.active};
    } else {
      assert MarkedActive(r) == {};
    }
  }

  // ----- The service -----

  predicate ValidId(id: string) {
    2 <= |id| <= 64 && forall c <- id :: 'a' <= c <= 'z' || 'A' <= c <= 'Z' || '0' <= c <= '9' || c in "._-"
  }

  /** Some character is neither a letter nor a digit, dot, underscore or hyphen. */
  predicate HasOther(id: string) {
    exists c <- id :: !(c in {'.', '_', '-'} || '0' <= c <= '9' || 'A' <= c <= 'Z' || 'a' <= c <= 'z')
  }

  lemma ValidIdIs(id: string)
    ensures ValidId(id) <==> 2 <= |id| <= 64 && !HasOther(id)
  {
  }

  /** What registering does to the registry: this host alone, with what was given, an access token given before staying. */
  lemma UpsertMeans(r: Registry, op: Op)
    requires op.Upsert?
    ensures var s := Apply(r, op);
            && op.id in s.hosts && s.hosts[op.id].id == op.id && s.hosts[op.id].name == op.name && s.hosts[op.id].url == op.url
            && (s.hosts[op.id].accessToken ==
                match op.accessToken
                case Some(_) => op.accessToken
                case None => if op.id in r.hosts then r.hosts[op.id].accessToken else None)
            && s.hosts - {op.id} == r.hosts - {op.id}
            && s.active == if op.setActive then op.id else r.active
  {
  }

  datatype UpsertReply = Registered(id: string) | InvalidHost | InvalidHostUrl

  class HostService {
    var hosts: map<string, Host>
    var active: string
    var disk: Disk

    function Value(): Registry
      reads this
    {
      Registry(hosts, active)
    }

    ghost predicate Valid()
      reads this
    {
      Consistent(Value()) && Mirrors(disk, Value())
    }

    constructor (found: Disk)
      ensures Value() == Load(found) && disk == found
      ensures hosts == found.hosts - {"", "local"} && active == if found.active in {None, Some("")} then "local" else found.active.value
      ensures Valid() <==> Consistent(Load(found)) && Mirrors(found, Load(found))
    {
      hosts, active, disk := Load(found).hosts, Load(found).active, found;
    }

    /** `generated` is the fresh id used when the caller gives none that is acceptable. */
    method UpsertHost(inputId: string, generated: string, name: string, url: string, httpUrl: bool,
                      accessToken: Option<string>, setActive: bool) returns (reply: UpsertReply)
      requires Valid() && generated != "" && generated != LOCAL
      modifies this
      ensures Valid()
      ensures reply == if name == "" || url == "" then InvalidHost else if !httpUrl then InvalidHostUrl
                       else Registered(if ValidId(inputId) && inputId != LOCAL then inputId else generated)
      ensures Value() == if reply.Registered? then old(Apply(Value(), Upsert(reply.id, name, url, accessToken, setActive)))
                         else old(Value())
      ensures reply.Registered? ==>
                reply.id == if inputId != "local" && 2 <= |inputId| <= 64 && !HasOther(inputId) then inputId else generated
    {
      if name == "" || url == "" { return InvalidHost; }
      if !httpUrl { return InvalidHostUrl; }
      ValidIdIs(inputId);
      var id := if ValidId(inputId) && inputId != LOCAL then inputId else generated;
      OperationKeepsMirror(Value(), disk, Upsert(id, name, url, accessToken, setActive));
      var token := if accessToken.Some? then accessToken else if id in hosts then hosts[id].accessToken else None;
      var record := Host(id, name, url, token);
      hosts := hosts[id := record];
      disk := WriteOne(disk, PutHost(record));
      if setActive {
        active := id;
        disk := WriteOne(disk, PutActive(id));
      }
      reply := Registered(id);
    }

    method SelectHost(id: string) returns (ok: bool)
      requires Valid()
      modifies this
      ensures Valid() && Value() == old(Apply(Value(), Select(id)))
      ensures ok <==> id == "local" || id in old(hosts)
      ensures hosts == old(hosts) && active == if ok then id else old(active)
    {
      if id != LOCAL && id !in hosts { return false; }
      active := id;
      disk := WriteOne(disk, PutActive(id));
      ok := true;
    }

    method RemoveHost(id: string) returns (ok: bool)
      requires Valid()
      modifies this
      ensures Valid() && Value() == old(Apply(Value(), Remove(id)))
      ensures ok <==> id in old(hosts)
      ensures hosts == old(hosts) - {id} && active == if ok && old(active) == id then "local" else old(active)
    {
      if id == LOCAL || id !in hosts { return false; }
      hosts := hosts - {id};
      disk := WriteOne(disk, DeleteHost(id));
      if active == id {
        active := LOCAL;
        disk := WriteOne(disk, PutActive(LOCAL));
      }
      ok := true;
    }
  }
}
