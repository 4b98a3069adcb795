/** How the gateway uses the contract cache: every request and queue message gets a service of its own
    (src/services/gateway-pool.ts), and sets the signers it needs before it looks contracts up. */
module CacheUse {
  import opened Wrappers
  import opened ContractCache

  // A contract asked for, through the cache or afresh.
  datatype Use = Use(address: string, cached: bool)

  // What a request does with its service. Accounts are activated by an account and then revealed with
  // the key of each.
  datatype Job =
    | SendTransactions(hash: string, uses: seq<Use>)
    | SendTransfers(hash: string)
    | Deploy(hash: string)
    | Forge(source: string, isReveal: bool, uses: seq<Use>)
    | ForgeReveal(source: string)
    | EstimateOperation(source: string, uses: seq<Use>)
    | ReadSchemaOrStorage(uses: seq<Use>)
    | ActivateAccounts(activator: string, keys: seq<string>)

  datatype Step = Sign(signer: Signer) | LookAt(use: Use)

  function LookAtAll(uses: seq<Use>): seq<Step> {
    seq(|uses|, i requires 0 <= i < |uses| => LookAt(uses[i]))
  }

  function Activations(activator: string, keys: seq<string>): seq<Step> {
    if keys == [] then []
    else [Sign(Vault(activator)), Sign(Vault(keys[0]))] + Activations(activator, keys[1..])
  }

  /** The steps of a job on its service, as far as it gets. */
  function Steps(job: Job): seq<Step> {
    match job
    case SendTransactions(hash, uses) => [Sign(Vault(hash))] + LookAtAll(uses)
    case SendTransfers(hash) => [Sign(Vault(hash))]
    case Deploy(hash) => [Sign(Vault(hash))]
    case Forge(source, isReveal, uses) =>
      (if isReveal then [Sign(Fake(source))] else []) + [Sign(Fake(source))] + LookAtAll(uses)
    case ForgeReveal(source) => [Sign(Fake(source))]
    case EstimateOperation(source, uses) => [Sign(Fake(source))] + LookAtAll(uses)
    case ReadSchemaOrStorage(uses) => LookAtAll(uses)
    case ActivateAccounts(activator, keys) => Activations(activator, keys)
  }

  /** What an action does on a service, if anything. */
  function StepOn(a: Action, service: nat): Option<Step> {
    match a
    case SetSigner(k, s) => if k == service then Some(Sign(s)) else None
    case Start(k, address) => if k == service then Some(LookAt(Use(address, true))) else None
    case StartDirect(k, address) => if k == service then Some(LookAt(Use(address, false))) else None
    case _ => None
  }

  /** What a run has done on a service so far. */
  function DoneOn(run: seq<Action>, service: nat): seq<Step> {
    if run == [] then []
    else
      var step := StepOn(run[|run| - 1], service);
      DoneOn(run[..|run| - 1], service) + if step.Some? then [step.value] else []
  }

  /** An interleaving of jobs, job k on service k: each has done a first part of its steps, and nothing is
      done on other services. Awaits inside lookups, expiry and other jobs come in between at will. */
  ghost predicate IsProgramRun(jobs: seq<Job>, run: seq<Action>) {
    && Exec(run).Some?
    && forall k: nat :: DoneOn(run, k) <= if k < |jobs| then Steps(jobs[k]) else []
  }

  predicate SignsFirst(steps: seq<Step>) {
    forall i, j :: 0 <= i < j < |steps| && steps[j].Sign? ==> steps[i].Sign?
  }

  lemma {:induction false} ActivationsSign(activator: string, keys: seq<string>)
    ensures forall i :: 0 <= i < |Activations(activator, keys)| ==> Activations(activator, keys)[i].Sign?
  {
    if keys != [] { ActivationsSign(activator, keys[1..]); }
  }

  /** Every job sets its signers before it looks at a contract. */
  lemma JobsSignFirst(job: Job)
    ensures SignsFirst(Steps(job))
  {
    if job.ActivateAccounts? { ActivationsSign(job.activator, job.keys); }
  }

  lemma {:induction false} LookupsAreSteps(run: seq<Action>, l: nat)
    requires Exec(run).Some? && l < |Exec(run).value.lookups|
    ensures var k := Exec(run).value.lookups[l].service;
            exists i :: 0 <= i < |DoneOn(run, k)| && DoneOn(run, k)[i].LookAt?
    decreases |run|
  {
    var before, a := run[..|run| - 1], run[|run| - 1];
    var w, k := Exec(before).value, Exec(run).value.lookups[l].service;
    if l < |w.lookups| {
      assert w.lookups[l].service == k;
      LookupsAreSteps(before, l);
      var i :| 0 <= i < |DoneOn(before, k)| && DoneOn(before, k)[i].LookAt?;
      assert DoneOn(run, k)[i] == DoneOn(before, k)[i];
    } else {
      assert StepOn(a, k).Some? && StepOn(a, k).value.LookAt?;
      assert DoneOn(run, k)[|DoneOn(before, k)|] == StepOn(a, k).value;
    }
  }

  lemma PrefixIsProgramRun(jobs: seq<Job>, run: seq<Action>)
    requires IsProgramRun(jobs, run) && run != []
    ensures IsProgramRun(jobs, run[..|run| - 1])
  {
    var before := run[..|run| - 1];
    forall k: nat ensures DoneOn(before, k) <= if k < |jobs| then Steps(jobs[k]) else [] {
      assert DoneOn(before, k) <= DoneOn(run, k);
    }
  }

  /** When a job sets a signer, it has done nothing but that before. */
  lemma OnlySignersBefore(jobs: seq<Job>, run: seq<Action>, k: nat)
    requires IsProgramRun(jobs, run) && run != [] && run[|run| - 1].SetSigner? && run[|run| - 1].service == k
    ensures var before := DoneOn(run[..|run| - 1], k); forall i :: 0 <= i < |before| ==> before[i].Sign?
  {
    var before, done := DoneOn(run[..|run| - 1], k), DoneOn(run, k);
    assert done == before + [Sign(run[|run| - 1].signer)];
    assert done <= if k < |jobs| then Steps(jobs[k]) else [];
    JobsSignFirst(jobs[k]);
    forall i | 0 <= i < |before| ensures before[i].Sign? {
      assert Steps(jobs[k])[i] == before[i] && Steps(jobs[k])[|before|].Sign?;
    }
  }

  /** A signer is never replaced on a service that has been asked for a contract. */
  lemma {:induction false} ProgramRunsAreSettled(jobs: seq<Job>, run: seq<Action>)
    requires IsProgramRun(jobs, run)
    ensures IsSettledRun(run)
    decreases |run|
  {
    if run != [] {
      var before, a := run[..|run| - 1], run[|run| - 1];
      PrefixIsProgramRun(jobs, run);
      ProgramRunsAreSettled(jobs, before);
      var w := Exec(before).value;
      if a.SetSigner? {
        OnlySignersBefore(jobs, run, a.service);
        forall l | 0 <= l < |w.lookups| ensures w.lookups[l].service != a.service {
          LookupsAreSteps(before, l);
        }
      }
    }
  }

  function LastSigner(steps: seq<Step>): Signer {
    if steps == [] then NoSigner
    else if steps[|steps| - 1].Sign? then steps[|steps| - 1].signer
    else LastSigner(steps[..|steps| - 1])
  }

  lemma NobodySigns(k: nat)
    ensures SignerOf(INIT, k) == NoSigner
  {
  }

  lemma OneStepSigns(w: World, a: Action, k: nat)
    requires Enabled(w, a)
    ensures var step := StepOn(a, k);
            SignerOf(Next(w, a), k) == if step.Some? && step.value.Sign? then step.value.signer else SignerOf(w, k)
  {
  }

  lemma {:induction false} SignerIsTheLastOne(run: seq<Action>, k: nat)
    requires Exec(run).Some?
    ensures SignerOf(Exec(run).value, k) == LastSigner(DoneOn(run, k))
    decreases |run|
  {
    hide Next, SignerOf, StepOn;
    if run == [] {
      assert SignerOf(INIT, k) == NoSigner by { NobodySigns(k); }
    } else {
      var before, step := run[..|run| - 1], StepOn(run[|run| - 1], k);
      SignerIsTheLastOne(before, k);
      OneStepSigns(Exec(before).value, run[|run| - 1], k);
      if step.Some? {
        assert DoneOn(run, k)[..|DoneOn(run, k)| - 1] == DoneOn(before, k);
      } else {
        assert DoneOn(run, k) == DoneOn(before, k);
      }
    }
  }

  lemma {:induction false} LookingKeepsTheSigner(steps: seq<Step>, n: nat)
    requires n <= |steps| && forall i :: n <= i < |steps| ==> steps[i].LookAt?
    ensures LastSigner(steps) == LastSigner(steps[..n])
    decreases |steps|
  {
    if n == |steps| {
      assert steps[..n] == steps;
    } else {
      assert steps[..|steps| - 1][..n] == steps[..n];
      LookingKeepsTheSigner(steps[..|steps| - 1], n);
    }
  }

  /** The key a job signs its calls with; jobs that send nothing have none. */
  function KeyOf(job: Job): Option<string> {
    if job.SendTransactions? then Some(job.hash) else None
  }

  /** A job that looks at contracts has its own key's signer by then. */
  lemma SignerWhenLooking(job: Job, done: seq<Step>)
    requires done <= Steps(job) && exists i :: 0 <= i < |done| && done[i].LookAt?
    ensures Hash(LastSigner(done)) == KeyOf(job)
  {
    match job
    case SendTransactions(hash, _) =>
      assert done[0] == Sign(Vault(hash)) && done[..1] == [Sign(Vault(hash))];
      LookingKeepsTheSigner(done, 1);
    case Forge(source, isReveal, _) =>
      var n := if isReveal then 2 else 1;
      assert n <= |done| && done[..n][|done[..n]| - 1] == Sign(Fake(source));
      LookingKeepsTheSigner(done, n);
    case EstimateOperation(source, _) =>
      assert done[0] == Sign(Fake(source)) && done[..1] == [Sign(Fake(source))];
      LookingKeepsTheSigner(done, 1);
    case ReadSchemaOrStorage(_) => LookingKeepsTheSigner(done, 0);
    case ActivateAccounts(activator, keys) => ActivationsSign(activator, keys);
    case _ =>
  }

  /** In every interleaving of the gateway's jobs, whatever expires and wherever their awaits fall: a job
      that has a contract has one for the address it asked for, made under its own key (or under none, if
      it sends nothing), on a service whose signer has that key for the rest of the run. */
  lemma JobsGetTheirOwnContracts(jobs: seq<Job>, run: seq<Action>, l: nat)
    requires IsProgramRun(jobs, run)
    requires l < |Exec(run).value.lookups| && Exec(run).value.lookups[l].progress.Returned?
    ensures var w := Exec(run).value;
            var look := w.lookups[l];
            && look.progress.c.address == look.address
            && look.service < |jobs|
            && Hash(look.progress.c.signer) == KeyOf(jobs[look.service])
            && Hash(SignerOf(w, look.progress.c.service)) == KeyOf(jobs[look.service])
  {
    ProgramRunsAreSettled(jobs, run);
    SettledLookupsAreSafe(run, l);
    LookupsAreSteps(run, l);
    SettledRunsKeepInv(run);
    var w := Exec(run).value;
    var k := w.lookups[l].service;
    assert DoneOn(run, k) <= if k < |jobs| then Steps(jobs[k]) else [];
    SignerIsTheLastOne(run, k);
    SignerWhenLooking(jobs[k], DoneOn(run, k));
    assert KeepsItsSigner(w, w.lookups[l]);
  }
}
