/** Contracts cached per signer (src/services/tezos.ts, src/services/cache-local.ts): one cache is
    shared by all services of a process, and lookups of several jobs interleave at their awaits. */
module ContractCache {
  import opened Wrappers

  // A Vault signer is known by its public key hash; forging uses a fake one; a toolkit starts with none.
  datatype Signer = NoSigner | Fake(pkh: string) | Vault(pkh: string)

  // A contract object belongs to the toolkit of one service, and was made under a signer.
  datatype Contract = Contract(address: string, service: nat, signer: Signer)

  type Cache = map<string, Contract>

  /** The part of the signer that the cache distinguishes. */
  function Hash(s: Signer): Option<string> {
    if s.Vault? then Some(s.pkh) else None
  }

  function Key(address: string, s: Signer): string {
    if s.Vault? then address + "-" + s.pkh else address
  }

  predicate IsAddress(a: string) {
    '-' !in a
  }

  lemma ShorterHasDash(a: string, p: string, b: string, q: string)
    requires a + "-" + p == b + "-" + q
    ensures |a| < |b| ==> '-' in b
  {
    if |a| < |b| {
      assert b[|a|] == (b + "-" + q)[|a|] == (a + "-" + p)[|a|];
    }
  }

  /** Addresses contain no dash, so the key tells the address and the signer's hash. */
  lemma KeyIsInjective(a: string, s: Signer, b: string, t: Signer)
    requires IsAddress(a) && IsAddress(b)
    ensures Key(a, s) == Key(b, t) <==> a == b && Hash(s) == Hash(t)
  {
    if Key(a, s) == Key(b, t) {
      assert s.Vault? ==> Key(a, s)[|a|] == '-';
      assert t.Vault? ==> Key(b, t)[|b|] == '-';
      if s.Vault? && t.Vault? {
        ShorterHasDash(a, s.pkh, b, t.pkh);
        ShorterHasDash(b, t.pkh, a, s.pkh);
        assert a == Key(a, s)[..|a|] && b == Key(b, t)[..|b|];
        assert s.pkh == Key(a, s)[|a| + 1..] && t.pkh == Key(b, t)[|b| + 1..];
      }
    }
  }

  /** Every entry sits under the key of its own address and signer. */
  ghost predicate Filed(cache: Cache) {
    forall k :: k in cache ==> k == Key(cache[k].address, cache[k].signer) && IsAddress(cache[k].address)
  }

  // ----- one service at a time ------------------------------------------------------------------------------

  class CacheLocal {
    var cache: Cache

    constructor ()
      ensures cache == map[]
    {
      cache := map[];
    }

    method Get(key: string) returns (c: Option<Contract>)
      ensures c == if key in cache then Some(cache[key]) else None
    {
      c := if key in cache then Some(cache[key]) else None;
    }

    method Set(key: string, c: Contract)
      modifies this
      ensures cache == old(cache)[key := c]
    {
      cache := cache[key := c];
    }
  }

  class TezosService {
    const id: nat
    const local: CacheLocal
    var signer: Signer

    constructor (id: nat, local: CacheLocal)
      ensures this.id == id && this.local == local && signer == NoSigner
    {
      this.id, this.local, signer := id, local, NoSigner;
    }

    method SetSigner(s: Signer)
      modifies this
      ensures signer == s
    {
      signer := s;
    }

    method GetContract(address: string) returns (c: Contract)
      requires Filed(local.cache) && IsAddress(address)
      modifies local
      ensures c.address == address && c.service == id && c.signer == signer
      ensures (if signer.Vault? then address + "-" + signer.pkh else address) in local.cache
      ensures local.cache == old(local.cache)[Key(address, signer) := c] && Filed(local.cache)
    {
      c := Contract(address, id, signer);
      var keyToCache := address;
      if signer.Vault? { keyToCache := address + "-" + signer.pkh; }
      local.Set(keyToCache, c);
    }

    /** Undisturbed, a lookup returns a contract for that address made under that signer, and keeps the
        cache filed. */
    method GetContractFromCache(address: string) returns (c: Contract)
      requires Filed(local.cache) && IsAddress(address)
      modifies local
      ensures c.address == address && Hash(c.signer) == Hash(signer)
      ensures Filed(local.cache)
      ensures local.cache == if Key(address, signer) in old(local.cache) then old(local.cache)
                             else old(local.cache)[Key(address, signer) := c]
    {
      var keyToCache := address;
      if signer.Vault? { keyToCache := address + "-" + signer.pkh; }
      var cached := local.Get(keyToCache);
      if cached.Some? {
        c := cached.value;
        KeyIsInjective(address, signer, c.address, c.signer);
      } else {
        c := GetContract(address);
      }
    }
  }

  // ----- interleaved lookups --------------------------------------------------------------------------------

  // A lookup keeps the signer it started with. After a miss it makes the contract under the signer of
  // that moment, which it keeps while it waits for that signer's hash.
  datatype Progress = Asking | Filling(c: Contract) | Returned(c: Contract)
  datatype LookUp = LookUp(service: nat, address: string, signer: Signer, missed: Option<Signer>, progress: Progress)

  datatype World = World(signers: map<nat, Signer>, cache: Cache, lookups: seq<LookUp>)

  datatype Action =
    | SetSigner(service: nat, signer: Signer)
    | Start(service: nat, address: string)          // getContractFromCache
    | StartDirect(service: nat, address: string)    // getContract
    | Read(l: nat)                                   // its hash is known: look into the cache
    | Fill(l: nat)                                   // the hash is known: write the cache, return
    | Expire(key: string)

  const INIT := World(map[], map[], [])

  function SignerOf(w: World, service: nat): Signer {
    if service in w.signers then w.signers[service] else NoSigner
  }

  predicate Enabled(w: World, a: Action) {
    match a
    case SetSigner(_, _) => true
    case Start(_, address) => IsAddress(address)
    case StartDirect(_, address) => IsAddress(address)
    case Read(l) => l < |w.lookups| && w.lookups[l].progress.Asking?
    case Fill(l) => l < |w.lookups| && w.lookups[l].progress.Filling?
    case Expire(_) => true
  }

  function Next(w: World, a: Action): World
    requires Enabled(w, a)
  {
    match a
    case SetSigner(service, s) => w.(signers := w.signers[service := s])
    case Start(service, address) =>
      w.(lookups := w.lookups + [LookUp(service, address, SignerOf(w, service), None, Asking)])
    case StartDirect(service, address) =>
      var now := SignerOf(w, service);
      w.(lookups := w.lookups + [LookUp(service, address, now, Some(now), Filling(Contract(address, service, now)))])
    case Read(l) =>
      var look := w.lookups[l];
      var key := Key(look.address, look.signer);
      if key in w.cache then w.(lookups := w.lookups[l := look.(progress := Returned(w.cache[key]))])
      else
        var now := SignerOf(w, look.service);
        var filling := Filling(Contract(look.address, look.service, now));
        w.(lookups := w.lookups[l := look.(missed := Some(now), progress := filling)])
    case Fill(l) =>
      var c := w.lookups[l].progress.c;
      w.(cache := w.cache[Key(c.address, c.signer) := c],
         lookups := w.lookups[l := w.lookups[l].(progress := Returned(c))])
    case Expire(key) => w.(cache := w.cache - {key})
  }

  function Exec(run: seq<Action>): Option<World> {
    if run == [] then Some(INIT)
    else
      var before := Exec(run[..|run| - 1]);
      if before.Some? && Enabled(before.value, run[|run| - 1]) then Some(Next(before.value, run[|run| - 1])) else None
  }

  /** A lookup that has a contract has one for its address; the contract is of its own signer exactly
      when it came from the cache, or the service still had that signer when the lookup missed. */
  ghost predicate LookUpOk(look: LookUp) {
    && IsAddress(look.address)
    && (look.progress.Asking? ==> look.missed.None?)
    && (look.progress.Filling? ==>
          look.missed.Some? && look.progress.c == Contract(look.address, look.service, look.missed.value))
    && (look.progress.Returned? ==>
          && look.progress.c.address == look.address
          && (Hash(look.progress.c.signer) == Hash(look.signer) <==>
              look.missed.None? || Hash(look.missed.value) == Hash(look.signer)))
  }

  ghost predicate Inv(w: World) {
    Filed(w.cache) && forall l :: 0 <= l < |w.lookups| ==> LookUpOk(w.lookups[l])
  }

  lemma InvNext(w: World, a: Action)
    requires Inv(w) && Enabled(w, a)
    ensures Inv(Next(w, a))
  {
    if a.Read? {
      var look := w.lookups[a.l];
      assert LookUpOk(look);
      var key := Key(look.address, look.signer);
      if key in w.cache {
        KeyIsInjective(look.address, look.signer, w.cache[key].address, w.cache[key].signer);
      }
    } else if a.Fill? {
      assert LookUpOk(w.lookups[a.l]);
    }
  }

  lemma {:induction false} RunsKeepInv(run: seq<Action>)
    requires Exec(run).Some?
    ensures Inv(Exec(run).value)
    decreases |run|
  {
    if run != [] {
      RunsKeepInv(run[..|run| - 1]);
      InvNext(Exec(run[..|run| - 1]).value, run[|run| - 1]);
    }
  }

  /** In every interleaving a lookup returns a contract for the address it asked for; and it is a
      contract made under the hash the lookup started with if and only if the lookup hit the cache or
      its service still had that hash when it missed. */
  lemma LookupReturnsOwnContract(run: seq<Action>, l: nat)
    requires Exec(run).Some? && l < |Exec(run).value.lookups| && Exec(run).value.lookups[l].progress.Returned?
    ensures var look := Exec(run).value.lookups[l];
            && look.progress.c.address == look.address
            && (Hash(look.progress.c.signer) == Hash(look.signer) <==>
                look.missed.None? || Hash(look.missed.value) == Hash(look.signer))
  {
    RunsKeepInv(run);
    assert LookUpOk(Exec(run).value.lookups[l]);
  }

  // ----- what is cached -----------------------------------------------------------------------------------------

  /** The contract that a run's last action files: its lookup had missed and made it. */
  ghost function Files(run: seq<Action>): Option<Contract>
    requires Exec(run).Some? && run != []
  {
    var a := run[|run| - 1];
    if a.Fill? then Some(Exec(run[..|run| - 1]).value.lookups[a.l].progress.c) else None
  }

  /** The contract filed last under a key, unless the key has expired since. */
  ghost function LastFiled(run: seq<Action>, key: string): Option<Contract>
    requires Exec(run).Some?
    decreases |run|
  {
    if run == [] then None
    else
      var a, c := run[|run| - 1], Files(run);
      if c.Some? && key == Key(c.value.address, c.value.signer) then c
      else if a == Expire(key) then None
      else LastFiled(run[..|run| - 1], key)
  }

  /** In every run the cache holds under a key what was filed there last, and nothing once it has expired. */
  lemma {:induction false} CacheHoldsLastFiled(run: seq<Action>, key: string)
    requires Exec(run).Some?
    ensures var cache := Exec(run).value.cache;
            LastFiled(run, key) == if key in cache then Some(cache[key]) else None
    decreases |run|
  {
    hide Key;
    if run != [] { CacheHoldsLastFiled(run[..|run| - 1], key); }
  }

  /** A lookup that reads the cache returns what was filed last under its key, if it has not expired; or it
      makes a contract on its own service under the signer of that moment, and returns this one. */
  lemma LookupReadsLastFiled(run: seq<Action>, l: nat)
    requires Exec(run).Some? && run != [] && run[|run| - 1] == Read(l)
    ensures var before, after := Exec(run[..|run| - 1]).value, Exec(run).value;
            var look := before.lookups[l];
            var filed := LastFiled(run[..|run| - 1], Key(look.address, look.signer));
            after.lookups[l].progress ==
            if filed.Some? then Returned(filed.value)
            else Filling(Contract(look.address, look.service, SignerOf(before, look.service)))
  {
    var before := Exec(run[..|run| - 1]).value;
    CacheHoldsLastFiled(run[..|run| - 1], Key(before.lookups[l].address, before.lookups[l].signer));
  }

  // ----- services that keep their signer ----------------------------------------------------------------------

  /** Once a service has been asked for a contract, its signer is replaced only by one of the same hash. */
  predicate Settled(w: World, a: Action) {
    a.SetSigner? && (exists l :: 0 <= l < |w.lookups| && w.lookups[l].service == a.service) ==>
      Hash(a.signer) == Hash(SignerOf(w, a.service))
  }

  ghost predicate IsSettledRun(run: seq<Action>)
    requires Exec(run).Some?
  {
    run == [] || (IsSettledRun(run[..|run| - 1]) && Settled(Exec(run[..|run| - 1]).value, run[|run| - 1]))
  }

  ghost predicate Asked(w: World, service: nat) {
    exists l :: 0 <= l < |w.lookups| && w.lookups[l].service == service
  }

  /** The contract's own service has been asked, and still has the hash the contract was made under. */
  ghost predicate Live(w: World, c: Contract) {
    Asked(w, c.service) && Hash(SignerOf(w, c.service)) == Hash(c.signer)
  }

  ghost predicate KeepsItsSigner(w: World, look: LookUp) {
    && Hash(SignerOf(w, look.service)) == Hash(look.signer)
    && (look.missed.Some? ==> Hash(look.missed.value) == Hash(look.signer))
    && (!look.progress.Asking? ==> Live(w, look.progress.c))
  }

  ghost predicate SettledInv(w: World) {
    && (forall k :: k in w.cache ==> Live(w, w.cache[k]))
    && (forall l :: 0 <= l < |w.lookups| ==> KeepsItsSigner(w, w.lookups[l]))
  }

  lemma StillLive(w: World, a: Action, c: Contract)
    requires Enabled(w, a) && Settled(w, a) && Live(w, c)
    ensures Live(Next(w, a), c)
  {
    var w' := Next(w, a);
    var l :| 0 <= l < |w.lookups| && w.lookups[l].service == c.service;
    assert w'.lookups[l].service == c.service;
  }

  lemma CacheStaysLive(w: World, a: Action)
    requires SettledInv(w) && Enabled(w, a) && Settled(w, a)
    ensures var w' := Next(w, a); forall k :: k in w'.cache ==> Live(w', w'.cache[k])
  {
    var w' := Next(w, a);
    forall k | k in w'.cache ensures Live(w', w'.cache[k]) {
      if a.Fill? && w'.cache[k] == w.lookups[a.l].progress.c {
        assert KeepsItsSigner(w, w.lookups[a.l]);
      } else {
        assert w'.cache[k] == w.cache[k];
      }
      StillLive(w, a, w'.cache[k]);
    }
  }

  lemma LookupKeepsItsSigner(w: World, a: Action, l: nat)
    requires SettledInv(w) && Enabled(w, a) && Settled(w, a) && l < |Next(w, a).lookups|
    ensures KeepsItsSigner(Next(w, a), Next(w, a).lookups[l])
  {
    var w' := Next(w, a);
    var look := w'.lookups[l];
    if l == |w.lookups| {
      assert look.service == a.service;
    } else {
      assert KeepsItsSigner(w, w.lookups[l]) && w.lookups[l].service == look.service;
      if !w.lookups[l].progress.Asking? {
        StillLive(w, a, w.lookups[l].progress.c);
      } else if look.progress.Returned? {
        StillLive(w, a, look.progress.c);
      }
    }
  }

  lemma SettledInvNext(w: World, a: Action)
    requires SettledInv(w) && Enabled(w, a) && Settled(w, a)
    ensures SettledInv(Next(w, a))
  {
    hide Live, KeepsItsSigner, Settled;
    CacheStaysLive(w, a);
    forall l | 0 <= l < |Next(w, a).lookups| ensures KeepsItsSigner(Next(w, a), Next(w, a).lookups[l]) {
      LookupKeepsItsSigner(w, a, l);
    }
  }

  lemma {:induction false} SettledRunsKeepInv(run: seq<Action>)
    requires Exec(run).Some? && IsSettledRun(run)
    ensures SettledInv(Exec(run).value)
    decreases |run|
  {
    if run != [] {
      var before := run[..|run| - 1];
      SettledRunsKeepInv(before);
      SettledInvNext(Exec(before).value, run[|run| - 1]);
    }
  }

  /** In a run where services keep their signer once they have been asked, every lookup gets a contract
      for its address made under its signer's hash, on a service that has that hash for the rest of the
      run: no job ever uses a contract of another signer, or of none. */
  lemma SettledLookupsAreSafe(run: seq<Action>, l: nat)
    requires Exec(run).Some? && IsSettledRun(run)
    requires l < |Exec(run).value.lookups| && Exec(run).value.lookups[l].progress.Returned?
    ensures var w := Exec(run).value;
            var look := w.lookups[l];
            && look.progress.c.address == look.address
            && Hash(look.progress.c.signer) == Hash(look.signer)
            && Hash(SignerOf(w, look.progress.c.service)) == Hash(look.signer)
  {
    RunsKeepInv(run);
    SettledRunsKeepInv(run);
    assert LookUpOk(Exec(run).value.lookups[l]) && KeepsItsSigner(Exec(run).value, Exec(run).value.lookups[l]);
  }
}
