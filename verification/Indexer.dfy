/** Confirmation of an operation: the indexer client's reading of a response and the pool's bounded
    retry (src/services/clients/indexer-client.ts, src/services/indexer-pool.ts). */
module Indexer {
  import opened Wrappers

  // What an indexer says about a hash: an operation with a status and, if known, a block level; a
  // body without operation; an HTTP error; or something unreadable.
  datatype Response =
    | Reported(success: bool, level: Option<nat>)
    | NoOperation
    | HttpError(status: nat)
    | Unreadable

  // One attempt: the indexer's response, and the node's head level unless the node fails.
  datatype Attempt = Attempt(response: Response, head: Option<nat>)

  datatype Verdict = Confirmed(enough: bool) | Unknown | NotFound | Failed | Crashed

  /** checkIfOperationIsConfirmed on one random indexer. */
  function Check(a: Attempt, confirmations: int): Verdict {
    match a.response
    case NoOperation => NotFound
    case HttpError(status) => if status == 404 then NotFound else Unknown
    case Unreadable => Unknown
    case Reported(success, level) =>
      if !success then Failed
      else if level.None? || level.value == 0 then Unknown
      else if a.head.None? then Crashed
      else Confirmed(a.head.value - level.value >= confirmations)
  }

  // ----- what a response means --------------------------------------------------------------------------

  /** The operation is reported as included at that level of the chain. */
  predicate IsIncluded(a: Attempt, level: nat) {
    level > 0 && a.response == Reported(true, Some(level))
  }

  /** The response is a success included in a block that lies deep enough below the head. */
  ghost predicate IsDeepSuccess(a: Attempt, confirmations: int) {
    exists level :: IsIncluded(a, level) && a.head.Some? && a.head.value - level >= confirmations
  }

  ghost predicate IsShallowSuccess(a: Attempt, confirmations: int) {
    exists level :: IsIncluded(a, level) && a.head.Some? && a.head.value - level < confirmations
  }

  predicate IsFailure(a: Attempt) {
    a.response.Reported? && !a.response.success
  }

  /** No operation under that hash: a body without one, or status 404. */
  predicate IsMissing(a: Attempt) {
    a.response == NoOperation || a.response == HttpError(404)
  }

  /** The node does not tell its head when it is needed. */
  ghost predicate IsHeadless(a: Attempt) {
    a.head.None? && exists level :: IsIncluded(a, level)
  }

  /** Nothing is known yet: another HTTP error, something unreadable, or a success without a level. */
  predicate IsInconclusive(a: Attempt) {
    match a.response
    case HttpError(status) => status != 404
    case Unreadable => true
    case Reported(success, level) => success && (level == None || level == Some(0))
    case NoOperation => false
  }

  /** The first conclusive attempt within the retries. */
  ghost predicate Decides(attempts: seq<Attempt>, retries: nat, k: nat) {
    k < |attempts| && k < retries && !IsInconclusive(attempts[k])
    && forall j :: 0 <= j < k ==> IsInconclusive(attempts[j])
  }

  ghost predicate NoneDecides(attempts: seq<Attempt>, retries: nat) {
    forall j :: 0 <= j < |attempts| && j < retries ==> IsInconclusive(attempts[j])
  }

  /** The first decisive verdict within the allowed attempts. */
  function FirstVerdict(attempts: seq<Attempt>, confirmations: int, retries: nat): Verdict {
    if retries == 0 || attempts == [] then Unknown
    else if Check(attempts[0], confirmations) != Unknown then Check(attempts[0], confirmations)
    else FirstVerdict(attempts[1..], confirmations, retries - 1)
  }

  method CheckByRandomIndexer(attempts: seq<Attempt>, confirmations: int, nbOfRetry: nat) returns (v: Verdict)
    requires |attempts| >= nbOfRetry
    ensures v == FirstVerdict(attempts, confirmations, nbOfRetry)
  {
    var retries, used := nbOfRetry, 0;
    assert attempts[0..] == attempts;
    while retries > 0
      invariant used + retries == nbOfRetry
      invariant FirstVerdict(attempts, confirmations, nbOfRetry) ==
                FirstVerdict(attempts[used..], confirmations, retries)
    {
      assert attempts[used..][1..] == attempts[used + 1..];
      v := Check(attempts[used], confirmations);
      if v != Unknown { return; }
      used, retries := used + 1, retries - 1;
    }
    return Unknown;
  }

  /** What one attempt is taken for, kind by kind. */
  lemma CheckMeans(a: Attempt, confirmations: int)
    ensures Check(a, confirmations) == Unknown <==> IsInconclusive(a)
    ensures Check(a, confirmations) == Failed <==> IsFailure(a)
    ensures Check(a, confirmations) == NotFound <==> IsMissing(a)
    ensures Check(a, confirmations) == Crashed <==> IsHeadless(a)
    ensures Check(a, confirmations) == Confirmed(true) <==> IsDeepSuccess(a, confirmations)
    ensures Check(a, confirmations) == Confirmed(false) <==> IsShallowSuccess(a, confirmations)
  {
    if a.response.Reported? && a.response.level.Some? && a.response.success && a.response.level.value > 0 {
      assert IsIncluded(a, a.response.level.value);
    }
  }

  /** The verdict is that of the first conclusive attempt within the retries, and Unknown iff there is none. */
  lemma {:induction false} VerdictOfFirstConclusive(attempts: seq<Attempt>, confirmations: int, retries: nat)
    ensures forall k: nat :: Decides(attempts, retries, k) ==>
              FirstVerdict(attempts, confirmations, retries) == Check(attempts[k], confirmations)
    ensures FirstVerdict(attempts, confirmations, retries) == Unknown <==> NoneDecides(attempts, retries)
    ensures NoneDecides(attempts, retries) || exists k: nat :: Decides(attempts, retries, k)
    decreases retries
  {
    hide Check, IsInconclusive;
    if retries > 0 && attempts != [] {
      var rest, fewer: nat := attempts[1..], retries - 1;
      CheckMeans(attempts[0], confirmations);
      VerdictOfFirstConclusive(rest, confirmations, fewer);
      if IsInconclusive(attempts[0]) {
        forall k: nat ensures Decides(attempts, retries, k) <==> k > 0 && Decides(rest, retries - 1, k - 1) {
          Shifted(attempts, retries, k);
        }
        assert forall j :: 0 < j < |attempts| ==> attempts[j] == rest[j - 1];
        assert forall j :: 0 <= j < |rest| ==> rest[j] == attempts[j + 1];
        if k: nat :| Decides(rest, fewer, k) { assert Decides(attempts, retries, k + 1); }
      } else {
        assert Decides(attempts, retries, 0);
      }
    }
  }

  lemma Shifted(attempts: seq<Attempt>, retries: nat, k: nat)
    requires retries > 0 && attempts != [] && IsInconclusive(attempts[0])
    ensures Decides(attempts, retries, k) <==> k > 0 && Decides(attempts[1..], retries - 1, k - 1)
  {
    hide IsInconclusive;
    assert forall j :: 0 < j < |attempts| ==> attempts[j] == attempts[1..][j - 1];
    if k > 0 && Decides(attempts[1..], retries - 1, k - 1) {
      forall j | 0 <= j < k ensures IsInconclusive(attempts[j]) {
        assert j > 0 ==> attempts[j] == attempts[1..][j - 1];
      }
    }
    if k > 0 && Decides(attempts, retries, k) {
      forall j | 0 <= j < k - 1 ensures IsInconclusive(attempts[1..][j]) { assert attempts[1..][j] == attempts[j + 1]; }
    }
  }

  lemma DecidesAlone(attempts: seq<Attempt>, retries: nat, k: nat)
    requires Decides(attempts, retries, k)
    ensures k < |attempts| && !IsInconclusive(attempts[k]) && !NoneDecides(attempts, retries)
  {
  }

  lemma OneDecides(attempts: seq<Attempt>, retries: nat, i: nat, k: nat)
    requires Decides(attempts, retries, i) && Decides(attempts, retries, k)
    ensures i == k
  {
  }

  /** The verdict, read off the responses of indexer and node. */
  lemma VerdictMeans(attempts: seq<Attempt>, confirmations: int, retries: nat)
    ensures var v := FirstVerdict(attempts, confirmations, retries);
            && (v == Unknown <==> NoneDecides(attempts, retries))
            && (v == Failed <==> exists k: nat :: Decides(attempts, retries, k) && IsFailure(attempts[k]))
            && (v == NotFound <==> exists k: nat :: Decides(attempts, retries, k) && IsMissing(attempts[k]))
            && (v == Crashed <==> exists k: nat :: Decides(attempts, retries, k) && IsHeadless(attempts[k]))
            && (v == Confirmed(true) <==>
                exists k: nat :: Decides(attempts, retries, k) && IsDeepSuccess(attempts[k], confirmations))
            && (v == Confirmed(false) <==>
                exists k: nat :: Decides(attempts, retries, k) && IsShallowSuccess(attempts[k], confirmations))
  {
    hide FirstVerdict, IsInconclusive, IsFailure, IsMissing, IsHeadless, IsDeepSuccess, IsShallowSuccess, Check;
    hide Decides, NoneDecides;
    VerdictOfFirstConclusive(attempts, confirmations, retries);
    if k: nat :| Decides(attempts, retries, k) {
      DecidesAlone(attempts, retries, k);
      CheckMeans(attempts[k], confirmations);
      forall i: nat | Decides(attempts, retries, i) ensures i == k { OneDecides(attempts, retries, i, k); }
    }
  }

  /** A job is confirmed exactly when, within the retries, some attempt is a deep success and every
      attempt before it was inconclusive. */
  lemma ConfirmedMeansDeepSuccess(attempts: seq<Attempt>, confirmations: int, retries: nat)
    ensures FirstVerdict(attempts, confirmations, retries) == Confirmed(true) <==>
            exists k :: 0 <= k < |attempts| && k < retries && IsDeepSuccess(attempts[k], confirmations)
                        && forall j :: 0 <= j < k ==> IsInconclusive(attempts[j])
  {
    VerdictMeans(attempts, confirmations, retries);
    if k :| 0 <= k < |attempts| && k < retries && IsDeepSuccess(attempts[k], confirmations)
            && forall j :: 0 <= j < k ==> IsInconclusive(attempts[j])
    {
      assert Decides(attempts, retries, k);
    }
  }
}
