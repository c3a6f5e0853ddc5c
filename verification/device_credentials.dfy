/**
 Credentials of paired mobile devices. Only hashes of tokens are kept, in memory and in the store; a
 restarted process rebuilds its devices from the store.
 */
module DeviceCredentials {
  import opened Options

  datatype Device = Device(deviceId: string, tokenHash: string, refreshHash: string,
                           createdAt: int, expiresAt: int, revoked: bool, revokedAt: Option<int>)

  type Devices = map<string, Device>

  type Hash = string -> string

  /** SHA-256 is taken to be collision free; a digest is never empty. */
  ghost predicate GoodHash(hash: Hash) {
    (forall s, t :: hash(s) == hash(t) ==> s == t) && forall s :: hash(s) != ""
  }

  const DEFAULT_TTL_MS := 604_800_000

  /** One completed operation. A rotation records which device it was granted to, if any. */
  datatype Event =
    | Issued(device: string, access: string, refresh: string, now: int, ttlMs: int)
    | Rotated(presented: string, granted: Option<string>, access: string, refresh: string, now: int, ttlMs: int)
    | Revoked(device: string, now: int)
    | Restarted

  function IssueDevice(devs: Devices, hash: Hash, e: Event): Devices
    requires e.Issued?
  {
    devs[e.device := Device(e.device, hash(e.access), hash(e.refresh),
                            if e.device in devs then devs[e.device].createdAt else e.now, e.now + e.ttlMs, false, None)]
  }

  /** The record whose refresh token this is, still valid. */
  predicate Rotatable(d: Device, refreshHash: string, now: int) {
    !d.revoked && d.revokedAt.None? && d.expiresAt > now && d.refreshHash == refreshHash
  }

  function RotateDevice(d: Device, hash: Hash, e: Event): Device
    requires e.Rotated?
  {
    d.(tokenHash := hash(e.access), refreshHash := hash(e.refresh), expiresAt := e.now + e.ttlMs)
  }

  function RevokeDevice(devs: Devices, id: string, now: int): Devices {
    if id in devs then devs[id := devs[id].(revoked := true, revokedAt := Some(now))] else devs
  }

  /** What start-up keeps of the stored records. */
  function Restored(stored: Devices): Devices {
    map id | id in stored && stored[id].deviceId != "" && stored[id].tokenHash != "" :: stored[id]
  }

  predicate Next(devs: Devices, hash: Hash, e: Event, devs': Devices) {
    match e
    case Issued(device, _, _, _, _) => device != "" && devs' == IssueDevice(devs, hash, e)
    case Rotated(presented, granted, _, _, now, _) =>
      if granted.Some? then
        && presented != "" && granted.value in devs && Rotatable(devs[granted.value], hash(presented), now)
        && devs' == devs[granted.value := RotateDevice(devs[granted.value], hash, e)]
      else
        devs' == devs && (presented == "" || forall id <- devs :: !Rotatable(devs[id], hash(presented), now))
    case Revoked(device, now) => devs' == RevokeDevice(devs, device, now)
    case Restarted => devs' == Restored(devs)
  }

  predicate Matches(d: Device, tokenHash: string, now: int) {
    !d.revoked && d.expiresAt > now && d.tokenHash == tokenHash
  }

  /** The token opens the API for this device at this time. */
  predicate Opens(devs: Devices, hash: Hash, token: string, now: int, id: string) {
    token != "" && id in devs && Matches(devs[id], hash(token), now)
  }

  // ----- Runs -----

  datatype Run = Run(devices: seq<Devices>, events: seq<Event>)

  predicate Mints(e: Event) {
    e.Issued? || (e.Rotated? && e.granted.Some?)
  }

  /** Each operation completes before the next; tokens are drawn fresh. */
  ghost predicate ValidRun(run: Run, hash: Hash) {
    && GoodHash(hash)
    && |run.devices| == |run.events| + 1 && run.devices[0] == map[]
    && (forall i :: 0 <= i < |run.events| ==> Next(run.devices[i], hash, run.events[i], run.devices[i + 1]))
    && (forall i :: 0 <= i < |run.events| && Mints(run.events[i]) ==> run.events[i].access != "" && run.events[i].refresh != "")
    && (forall i, j :: 0 <= i < j < |run.events| && Mints(run.events[i]) && Mints(run.events[j]) ==>
          run.events[i].access != run.events[j].access && run.events[i].refresh != run.events[j].refresh)
  }

  /** Event `i` handed new tokens to device `id`. */
  predicate Grants(run: Run, i: int, id: string) {
    0 <= i < |run.events|
    && ((run.events[i].Issued? && run.events[i].device == id)
        || (run.events[i].Rotated? && run.events[i].granted == Some(id)))
  }

  predicate Revokes(run: Run, i: int, id: string) {
    0 <= i < |run.events| && run.events[i].Revoked? && run.events[i].device == id
  }

  /** `i` is the newest grant to `id` among the first `n` events, and `d` is what it left, revoked since or not. */
  ghost predicate NewestGrant(run: Run, hash: Hash, n: nat, id: string, i: nat, d: Device) {
    && i < n && Grants(run, i, id) && (forall k :: i < k < n ==> !Grants(run, k, id))
    && d.deviceId == id && id != ""
    && d.tokenHash == hash(run.events[i].access) && d.refreshHash == hash(run.events[i].refresh)
    && d.expiresAt == run.events[i].now + run.events[i].ttlMs
    && (d.revoked <==> d.revokedAt.Some?)
    && (d.revoked <==> exists k :: i < k < n && Revokes(run, k, id))
  }

  lemma StepKeepsDevice(devs: Devices, hash: Hash, e: Event, devs': Devices, id: string)
    requires Next(devs, hash, e, devs') && id in devs && devs[id].deviceId == id && id != "" && devs[id].tokenHash != ""
    ensures id in devs'
    ensures !(Mints(e) && (if e.Issued? then e.device == id else e.granted == Some(id))) ==>
              devs'[id] == if e.Revoked? && e.device == id then devs[id].(revoked := true, revokedAt := Some(e.now)) else devs[id]
  {
  }

  lemma GrantMakesDevice(devs: Devices, hash: Hash, e: Event, devs': Devices, id: string)
    requires Next(devs, hash, e, devs') && Mints(e) && (if e.Issued? then e.device == id else e.granted == Some(id))
    requires e.Rotated? ==> devs[id].deviceId == id && id != ""
    ensures id in devs' && devs'[id].deviceId == id && id != "" && !devs'[id].revoked && devs'[id].revokedAt.None?
    ensures devs'[id].tokenHash == hash(e.access) && devs'[id].refreshHash == hash(e.refresh)
    ensures devs'[id].expiresAt == e.now + e.ttlMs
  {
  }

  lemma RevokedSince(run: Run, i: nat, n: nat, id: string)
    requires i < n
    ensures (exists k :: i < k < n + 1 && Revokes(run, k, id)) <==>
            Revokes(run, n, id) || exists k :: i < k < n && Revokes(run, k, id)
  {
  }

  /** Every known device is explained by its newest grant. */
  lemma {:induction false} DeviceHistory(run: Run, hash: Hash, n: nat, id: string) returns (i: nat)
    requires ValidRun(run, hash) && n < |run.devices| && id in run.devices[n]
    ensures NewestGrant(run, hash, n, id, i, run.devices[n][id])
  {
    var before, e, after := run.devices[n - 1], run.events[n - 1], run.devices[n - 1 + 1];
    assert Next(before, hash, e, after);
    if Grants(run, n - 1, id) {
      i := n - 1;
      if e.Rotated? { var _ := DeviceHistory(run, hash, n - 1, id); }
      GrantMakesDevice(before, hash, e, after, id);
    } else {
      i := DeviceHistory(run, hash, n - 1, id);
      StepKeepsDevice(before, hash, e, after, id);
      RevokedSince(run, i, n - 1, id);
    }
  }

  lemma {:induction false} GrantedIsKnown(run: Run, hash: Hash, i: nat, n: nat, id: string)
    requires ValidRun(run, hash) && i < n < |run.devices| && Grants(run, i, id)
    ensures id in run.devices[n]
  {
    assert Next(run.devices[n - 1], hash, run.events[n - 1], run.devices[n - 1 + 1]);
    if i < n - 1 {
      GrantedIsKnown(run, hash, i, n - 1, id);
      var _ := DeviceHistory(run, hash, n - 1, id);
      StepKeepsDevice(run.devices[n - 1], hash, run.events[n - 1], run.devices[n], id);
    }
  }

  /** A token handed out at `i` is in force after `n` events: newest of its device, not revoked since, not expired. */
  ghost predicate InForce(run: Run, i: nat, n: nat, id: string, now: int) {
    && i < n && Grants(run, i, id)
    && (forall k :: i < k < n ==> !Grants(run, k, id) && !Revokes(run, k, id))
    && now < run.events[i].now + run.events[i].ttlMs
  }

  /** An access token opens the API exactly while it is in force - across rotations, revocations and restarts. */
  lemma TokenOpensIffInForce(run: Run, hash: Hash, n: nat, token: string, now: int, id: string)
    requires ValidRun(run, hash) && n < |run.devices|
    ensures Opens(run.devices[n], hash, token, now, id) <==>
            exists i: nat :: i < n && InForce(run, i, n, id, now) && run.events[i].access == token
  {
    if Opens(run.devices[n], hash, token, now, id) {
      var i := DeviceHistory(run, hash, n, id);
      assert InForce(run, i, n, id, now) && run.events[i].access == token;
    }
    if i: nat :| i < n && InForce(run, i, n, id, now) && run.events[i].access == token {
      GrantedIsKnown(run, hash, i, n, id);
      var j := DeviceHistory(run, hash, n, id);
      assert i == j;
    }
  }

  /** An access token opens the API for one device at most. */
  lemma TokenOpensOneDevice(run: Run, hash: Hash, n: nat, token: string, now: int, id: string, id': string)
    requires ValidRun(run, hash) && n < |run.devices|
    requires Opens(run.devices[n], hash, token, now, id) && Opens(run.devices[n], hash, token, now, id')
    ensures id == id'
  {
    var i := DeviceHistory(run, hash, n, id);
    var j := DeviceHistory(run, hash, n, id');
  }

  /**
   The same of refresh tokens: a rotation is granted, and to this device, exactly if the token presented is the
   newest one of the device, the device was not revoked since and the credential has not expired.
   */
  lemma RotationGrantedIff(run: Run, hash: Hash, n: nat, id: string)
    requires ValidRun(run, hash) && n < |run.events| && run.events[n].Rotated?
    ensures run.events[n].granted == Some(id) <==>
            && run.events[n].presented != ""
            && exists i: nat :: i < n && InForce(run, i, n, id, run.events[n].now) && run.events[i].refresh == run.events[n].presented
  {
    var e := run.events[n];
    assert Next(run.devices[n], hash, e, run.devices[n + 1]);
    if e.granted == Some(id) {
      var i := DeviceHistory(run, hash, n, id);
      assert InForce(run, i, n, id, e.now) && run.events[i].refresh == e.presented;
    }
    if i: nat :| e.presented != "" && i < n && InForce(run, i, n, id, e.now) && run.events[i].refresh == e.presented {
      RefreshIsRotatable(run, hash, n, id, i, e.now);
      var j := DeviceHistory(run, hash, n, e.granted.value);
      assert i == j;
    }
  }

  lemma RefreshIsRotatable(run: Run, hash: Hash, n: nat, id: string, i: nat, now: int)
    requires ValidRun(run, hash) && n < |run.devices| && InForce(run, i, n, id, now)
    ensures id in run.devices[n] && Rotatable(run.devices[n][id], hash(run.events[i].refresh), now)
  {
    GrantedIsKnown(run, hash, i, n, id);
    var j := DeviceHistory(run, hash, n, id);
    assert i == j;
  }

  /** A refresh token is accepted at most once in the whole run. */
  lemma RefreshAcceptedOnce(run: Run, hash: Hash, i: nat, j: nat)
    requires ValidRun(run, hash) && i < j < |run.events|
    requires run.events[i].Rotated? && run.events[j].Rotated? && run.events[i].presented == run.events[j].presented
    requires run.events[i].granted.Some?
    ensures run.events[j].granted.None?
  {
    assert Next(run.devices[i], hash, run.events[i], run.devices[i + 1]);
    assert Next(run.devices[j], hash, run.events[j], run.devices[j + 1]);
    if run.events[j].granted.Some? {
      var a := DeviceHistory(run, hash, i, run.events[i].granted.value);
      var b := DeviceHistory(run, hash, j, run.events[j].granted.value);
      assert run.events[a].refresh == run.events[i].presented == run.events[b].refresh;
      assert a == b;
      assert Grants(run, i, run.events[i].granted.value);
    }
  }

  /** A device keeps the time of its first pairing, also when it is paired again. */
  lemma {:induction false} PairingTimeStays(run: Run, hash: Hash, m: nat, n: nat, id: string)
    requires ValidRun(run, hash) && m <= n < |run.devices| && id in run.devices[m]
    ensures id in run.devices[n] && run.devices[n][id].createdAt == run.devices[m][id].createdAt
  {
    if m < n {
      PairingTimeStays(run, hash, m, n - 1, id);
      var _ := DeviceHistory(run, hash, n - 1, id);
      assert Next(run.devices[n - 1], hash, run.events[n - 1], run.devices[n - 1 + 1]);
      StepKeepsDevice(run.devices[n - 1], hash, run.events[n - 1], run.devices[n], id);
    }
  }

  /** The first grant to a device sets that time. */
  lemma {:induction false} PairedAtFirstGrant(run: Run, hash: Hash, i: nat, n: nat, id: string)
    requires ValidRun(run, hash) && i < n < |run.devices| && Grants(run, i, id) && forall k: nat :: k < i ==> !Grants(run, k, id)
    ensures id in run.devices[n] && run.devices[n][id].createdAt == run.events[i].now
  {
    assert Next(run.devices[i], hash, run.events[i], run.devices[i + 1]);
    if id in run.devices[i] { var k := DeviceHistory(run, hash, i, id); }
    PairingTimeStays(run, hash, i + 1, n, id);
  }

  /** A revoked device carries the time of its latest revocation. */
  lemma {:induction false} RevokedAtLatest(run: Run, hash: Hash, n: nat, id: string) returns (k: nat)
    requires ValidRun(run, hash) && n < |run.devices| && id in run.devices[n] && run.devices[n][id].revoked
    ensures k < n && Revokes(run, k, id) && (forall m :: k < m < n ==> !Revokes(run, m, id))
    ensures run.devices[n][id].revokedAt == Some(run.events[k].now)
  {
    if Revokes(run, n - 1, id) {
      k := n - 1;
      assert Next(run.devices[n - 1], hash, run.events[n - 1], run.devices[n - 1 + 1]);
    } else {
      RevokedBefore(run, hash, n, id);
      k := RevokedAtLatest(run, hash, n - 1, id);
    }
  }

  lemma RevokedBefore(run: Run, hash: Hash, n: nat, id: string)
    requires ValidRun(run, hash) && n < |run.devices| && id in run.devices[n] && run.devices[n][id].revoked && !Revokes(run, n - 1, id)
    ensures n > 0 && id in run.devices[n - 1] && run.devices[n - 1][id] == run.devices[n][id]
  {
    var i := DeviceHistory(run, hash, n, id);
    var k :| i < k < n && Revokes(run, k, id);
    GrantedIsKnown(run, hash, i, n - 1, id);
    var _ := DeviceHistory(run, hash, n - 1, id);
    assert Next(run.devices[n - 1], hash, run.events[n - 1], run.devices[n - 1 + 1]);
    StepKeepsDevice(run.devices[n - 1], hash, run.events[n - 1], run.devices[n], id);
    assert !Grants(run, n - 1, id);
  }

  /** Restarting rebuilds exactly the devices that were known. */
  lemma RestartChangesNothing(run: Run, hash: Hash, n: nat)
    requires ValidRun(run, hash) && n < |run.devices|
    ensures Restored(run.devices[n]) == run.devices[n]
  {
    forall id | id in run.devices[n] ensures run.devices[n][id].deviceId != "" && run.devices[n][id].tokenHash != "" {
      var _ := DeviceHistory(run, hash, n, id);
    }
  }

  // ----- The process -----

  datatype Credential = Credential(deviceId: string, access: string, refresh: string, expiresAt: int)

  class ApiAuth {
    const hash: Hash
    var devices: Devices
    var store: Devices

    /** After a completed operation, memory and store agree. */
    ghost predicate Valid()
      reads this
    {
      GoodHash(hash) && store == devices
      && forall id <- devices :: id != "" && devices[id].deviceId == id && devices[id].tokenHash != ""
    }

    /** Start-up: load what the store holds. */
    constructor (stored: Devices, hash: Hash)
      ensures devices == Restored(stored) && store == stored && this.hash == hash
      ensures forall id <- stored :: (id in devices <==> stored[id].deviceId != "" && stored[id].tokenHash != "")
                                     && (id in devices ==> devices[id] == stored[id])
    {
      this.hash := hash;
      store := stored;
      devices := map id | id in stored && stored[id].deviceId != "" && stored[id].tokenHash != "" :: stored[id];
    }

    method Issue(deviceId: string, access: string, refresh: string, now: int, ttlMs: Option<int>) returns (c: Credential)
      requires Valid() && deviceId != ""
      modifies this
      ensures Valid()
      ensures Next(old(devices), hash, Issued(deviceId, access, refresh, now, c.expiresAt - now), devices)
      ensures c == Credential(deviceId, access, refresh, now + match ttlMs case Some(ms) => ms case None => 7 * 24 * 60 * 60 * 1000)
    {
      var ttl := if ttlMs.Some? then ttlMs.value else DEFAULT_TTL_MS;
      var record := Device(deviceId, hash(access), hash(refresh),
                           if deviceId in devices then devices[deviceId].createdAt else now, now + ttl, false, None);
      store := store[deviceId := record];
      devices := devices[deviceId := record];
      c := Credential(deviceId, access, refresh, now + ttl);
    }

    method Rotate(presented: string, access: string, refresh: string, now: int, ttlMs: int) returns (c: Option<Credential>)
      requires Valid()
      modifies this
      ensures Valid()
      ensures var granted := if c.Some? then Some(c.value.deviceId) else None;
              Next(old(devices), hash, Rotated(presented, granted, access, refresh, now, ttlMs), devices)
      ensures c.Some? ==> c.value == Credential(c.value.deviceId, access, refresh, now + ttlMs)
    {
      if presented == "" { return None; }
      var id := Find(hash(presented), now, true);
      if id.None? { return None; }
      var updated := devices[id.value].(tokenHash := hash(access), refreshHash := hash(refresh), expiresAt := now + ttlMs);
      store := store[id.value := updated];
      devices := devices[id.value := updated];
      c := Some(Credential(id.value, access, refresh, now + ttlMs));
    }

    method Revoke(deviceId: string, now: int) returns (known: bool)
      requires Valid()
      modifies this
      ensures Valid() && Next(old(devices), hash, Revoked(deviceId, now), devices)
      ensures known <==> deviceId in old(devices)
    {
      if deviceId !in devices { return false; }
      var record := devices[deviceId].(revoked := true, revokedAt := Some(now));
      devices := devices[deviceId := record];
      store := store[deviceId := record];
      known := true;
    }

    method Match(presented: string, now: int) returns (id: Option<string>)
      ensures id.Some? ==> Opens(devices, hash, presented, now, id.value)
      ensures id.None? ==> forall other :: !Opens(devices, hash, presented, now, other)
    {
      if presented == "" { return None; }
      id := Find(hash(presented), now, false);
    }

    predicate Fits(id: string, digest: string, now: int, byRefresh: bool)
      reads this
    {
      id in devices && if byRefresh then Rotatable(devices[id], digest, now) else Matches(devices[id], digest, now)
    }

    /** The scan over all devices; the last fitting one wins. */
    method Find(digest: string, now: int, byRefresh: bool) returns (id: Option<string>)
      ensures id.Some? ==> Fits(id.value, digest, now, byRefresh)
      ensures id.None? ==> forall other <- devices :: !Fits(other, digest, now, byRefresh)
    {
      id := None;
      var todo := devices.Keys;
      while todo != {}
        invariant todo <= devices.Keys
        invariant id.Some? ==> Fits(id.value, digest, now, byRefresh)
        invariant id.None? ==> forall other <- devices :: other !in todo ==> !Fits(other, digest, now, byRefresh)
        decreases |todo|
      {
        var next :| next in todo;
        if Fits(next, digest, now, byRefresh) {
          id := Some(next);
        }
        todo := todo - {next};
      }
    }
  }
}
