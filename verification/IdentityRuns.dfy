/** The identity over whole histories of boots, restores, wipes and reloads. */
module IdentityRuns {
  import opened Basics
  import opened DeviceIdentity

  /** One call and how its storage calls end. */
  datatype Op =
    | Boots(made: Fresh, script: seq<Option<Fault>>)
    | Restores(secret: Seed, publicKey: PubKey, foreignSealed: bool, newKek: Kek, script: seq<Option<Fault>>)
    | Wipes(script: seq<Option<Fault>>)
    | Reloads

  /** Every restore brings a secret and the public key that belongs to it. */
  ghost predicate Consistent(ops: seq<Op>, curve: Curve) {
    forall op | op in ops && op.Restores? :: curve.Pub(op.secret) == op.publicKey
  }

  predicate Undisturbed(ops: seq<Op>) { forall op | op in ops :: op.Boots? || op.Reloads? }

  ghost predicate AllAre(results: seq<Boot>, d: Disk) {
    forall r | r in results && r.Persisted? :: HasPair(d) && r.id == OnDisk(d)
  }

  /** Any history, any faults, cut off anywhere: the disk is safe at its end, and as long as nothing was
      restored or wiped every identity handed out as persisted is the one still on disk. */
  method Live(device: Device, ops: seq<Op>) returns (results: seq<Boot>)
    requires device.Valid() && Consistent(ops, device.curve)
    modifies device
    ensures device.Valid() && Safe(device.disk, device.curve)
    ensures Undisturbed(ops) ==> AllAre(results, device.disk)
    ensures Undisturbed(ops) && HasPair(old(device.disk)) ==> HasPair(device.disk) && OnDisk(device.disk) == OnDisk(old(device.disk))
  {
    results := [];
    var i := 0;
    while i < |ops|
      invariant i <= |ops| && device.Valid()
      invariant Undisturbed(ops) ==> AllAre(results, device.disk)
      invariant Undisturbed(ops) && HasPair(old(device.disk)) ==> HasPair(device.disk) && OnDisk(device.disk) == OnDisk(old(device.disk))
    {
      var op := ops[i];
      assert op in ops;
      match op {
        case Boots(made, script) =>
          device.script := script;
          var r := device.GetOrCreateDeviceIdentity(made);
          results := results + [r];
        case Restores(secret, publicKey, foreignSealed, newKek, script) =>
          device.script := script;
          var r := device.ReplaceDeviceIdentity(secret, publicKey, foreignSealed, newKek);
        case Wipes(script) =>
          device.script := script;
          var fault := device.ClearDeviceIdentity();
        case Reloads => device.Reload();
      }
      i := i + 1;
    }
  }

  /** One boot as its contract shows it. */
  datatype Call = Call(before: Disk, made: Fresh, result: Boot, after: Disk)

  ghost predicate Chained(history: seq<Call>) {
    && (forall i | 0 <= i < |history| :: Booted(history[i].before, history[i].after, history[i].made, history[i].result))
    && (forall i | 0 < i < |history| :: history[i].before == history[i - 1].after)
  }

  lemma {:induction false} PairsLast(history: seq<Call>, i: nat, j: nat)
    requires Chained(history) && i <= j < |history| && HasPair(history[i].after)
    ensures HasPair(history[j].after) && OnDisk(history[j].after) == OnDisk(history[i].after)
    decreases j
  {
    if i < j { PairsLast(history, i, j - 1); }
  }

  /** One identity for life: two boots that hand out persisted identities hand out the same one, and a
      record, once there, is never lost in between. */
  lemma IdentityForLife(history: seq<Call>, i: nat, j: nat)
    requires Chained(history) && i <= j < |history|
    ensures history[i].result.Persisted? && history[j].result.Persisted? ==> history[i].result.id == history[j].result.id
    ensures history[i].before.device.Some? ==> history[j].after.device.Some?
  {
    if history[i].result.Persisted? { PairsLast(history, i, j); }
    if history[i].before.device.Some? { RecordsLast(history, i, j); }
  }

  lemma {:induction false} RecordsLast(history: seq<Call>, i: nat, j: nat)
    requires Chained(history) && i <= j < |history| && history[i].before.device.Some?
    ensures history[j].after.device.Some?
    decreases j
  {
    if i < j { RecordsLast(history, i, j - 1); }
  }

  /** Safe is exactly what loading needs: where WebCrypto checks both halves, a pair unwraps under the
      resolved key or the legacy key if and only if it is safe. */
  lemma LoadsIffSafe(d: Disk, runtime: Runtime, curve: Curve, newKek: Kek)
    requires HasPair(d) && runtime.ed25519 && (d.kek == None && KeyOf(d.legacyKek) == None ==> newKek != d.rawSeed.value.kek)
    ensures var stored := d.device.value;
            var k := Resolved(d, None, newKek);
            var legacy := KeyOf(d.legacyKek);
            Safe(d, curve) <==> (k.Ok? && Unwrapped(d, stored, k.value, runtime, curve).Ok?)
                                || (legacy.Some? && Unwrapped(d, stored, legacy.value, runtime, curve).Ok?)
  {
  }
}
