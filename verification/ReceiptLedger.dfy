/**
 * Verifying receipts, and consuming the runs they stand for.
 *
 * A receipt is accepted against the plan of its suite.  A consuming verification then claims every run
 * by creating a file named after it, which succeeds only for the first to try.
 */
module ReceiptLedger {
  import opened Prelude
  import opened InventoryPlan
  import Glob
  import StableJson

  // `sound` stands for the checks of a receipt that concern it alone: its schema, authority records,
  // times, bindings, digests, transcript, result, counts and skips.
  datatype Receipt = Receipt(runId: string, suite: string, profile: string, files: seq<string>, sound: bool)

  datatype Refusal =
    | NoPlan | Duplicate(key: string) | UnknownReceiptSuite | Unsound | BadPath | NotSorted | NotThePlan
    | BadSelection | Missing | AlreadyVerified

  function Key(r: Receipt): string {
    r.suite + ['/'] + r.profile
  }

  // ---- Paths ----

  function Forward(path: string): string {
    if path == [] then [] else [if path[0] == '\\' then '/' else path[0]] + Forward(path[1..])
  }

  function WithoutDotSlash(path: string): string {
    if |path| >= 2 && path[0] == '.' && path[1] == '/' then path[2..] else path
  }

  /** normalizePath: forward slashes, no leading `./`, and None for a path that is not repository-relative. */
  function NormalizePath(path: string): Option<string> {
    if path == [] then None
    else
      var p := WithoutDotSlash(Forward(path));
      if (p != [] && p[0] == '/') || ['.', '.'] in Glob.Split(p) then None else Some(p)
  }

  function NormalizeAll(paths: seq<string>): Option<seq<string>> {
    if paths == [] then Some([])
    else
      var first, rest := NormalizePath(paths[0]), NormalizeAll(paths[1..]);
      if first.None? || rest.None? then None else Some([first.value] + rest.value)
  }

  /** sortedUnique */
  method SortedUnique(paths: seq<string>) returns (r: Result<seq<string>, Refusal>)
    ensures r.Ok? <==> NormalizeAll(paths).Some? && StableJson.Ascending(NormalizeAll(paths).value)
    ensures r.Ok? ==> Some(r.value) == NormalizeAll(paths)
    ensures r == Err(BadPath) <==> NormalizeAll(paths).None?
    ensures r == Err(NotSorted) <==> NormalizeAll(paths).Some? && !StableJson.Ascending(NormalizeAll(paths).value)
  {
    hide NormalizeAll, StableJson.Before;
    var normalized := NormalizeAll(paths);
    if normalized.None? {
      return Err(BadPath);
    }
    for k := 0 to |normalized.value|
      invariant forall i, j :: 0 <= i < j < k ==> StableJson.Before(normalized.value[i], normalized.value[j])
    {
      if k > 0 && !StableJson.Before(normalized.value[k - 1], normalized.value[k]) {
        return Err(NotSorted);
      }
      forall i | 0 <= i < k ensures StableJson.Before(normalized.value[i], normalized.value[k]) {
        if i < k - 1 {
          StableJson.BeforeTransitive(normalized.value[i], normalized.value[k - 1], normalized.value[k]);
        }
      }
    }
    return Ok(normalized.value);
  }

  // ---- What verifying accepts ----

  predicate PlanOf(m: Manifest, paths: seq<string>, id: string, plan: seq<string>) {
    exists i :: 0 <= i < |m.suites| && m.suites[i].id == id && plan == Planned(m, m.suites[i], paths)
  }

  // The receipt is sound, belongs to a suite and lists, sorted, exactly what that suite plans.
  predicate ReceiptMatches(m: Manifest, paths: seq<string>, r: Receipt) {
    && r.sound
    && NormalizeAll(r.files).Some?
    && StableJson.Ascending(NormalizeAll(r.files).value)
    && PlanOf(m, paths, r.suite, NormalizeAll(r.files).value)
  }

  predicate KeysDistinct(receipts: seq<Receipt>) {
    forall i, j :: 0 <= i < j < |receipts| ==> Key(receipts[i]) != Key(receipts[j])
  }

  predicate HasReceipt(receipts: seq<Receipt>, key: string) {
    exists i :: 0 <= i < |receipts| && Key(receipts[i]) == key
  }

  // A key is a suite and a profile with exactly one slash between them.
  predicate ValidKey(key: string) {
    exists i :: 0 < i < |key| - 1 && key[i] == '/' && forall j :: 0 <= j < |key| && j != i ==> key[j] != '/'
  }

  predicate ReceiptsMatch(m: Manifest, paths: seq<string>, receipts: seq<Receipt>, required: seq<string>) {
    && (forall i :: 0 <= i < |receipts| ==> ReceiptMatches(m, paths, receipts[i]))
    && KeysDistinct(receipts)
    && Distinct(required)
    && forall k :: 0 <= k < |required| ==> ValidKey(required[k]) && HasReceipt(receipts, required[k])
  }

  // The suites a verification plans: those of its receipts and those its required keys name.
  function SuiteIds(receipts: seq<Receipt>, keys: seq<string>): seq<string> {
    if receipts != [] then [receipts[0].suite] + SuiteIds(receipts[1..], keys)
    else if keys == [] then []
    else (if Glob.Split(keys[0])[0] == [] then [] else [Glob.Split(keys[0])[0]]) + SuiteIds([], keys[1..])
  }

  lemma {:induction false} SuiteIdsHold(receipts: seq<Receipt>, keys: seq<string>, i: nat)
    requires i < |receipts|
    ensures receipts[i].suite in SuiteIds(receipts, keys)
    decreases |receipts|
  {
    if i > 0 {
      SuiteIdsHold(receipts[1..], keys, i - 1);
    }
  }

  // The plan on record for an id is what its suite plans.
  lemma RecordedPlan(m: Manifest, plan: Planning, ids: seq<string>, id: string, files: seq<string>)
    requires DistinctIds(m.suites) && id in ids
    requires Some(plan.suites) == SelectedSuites(m, ids)
    requires Records(m, plan.suites, plan.executable, plan.owners, plan.plans)
    ensures PlanOf(m, plan.executable, id, files)
       <==> (exists i :: 0 <= i < |m.suites| && m.suites[i].id == id) && id in plan.plans && plan.plans[id] == files
  {
    hide Planned, PlannedBySome;
    WithIdsDistinct(m.suites, ids);
    if i :| 0 <= i < |m.suites| && m.suites[i].id == id {
      assert m.suites[i] in plan.suites;
      var k :| 0 <= k < |plan.suites| && plan.suites[k] == m.suites[i];
      assert RecordsSuite(m, plan.suites[k], plan.executable, plan.owners, plan.plans);
    }
  }

  function NormalizedFiles(r: Receipt): seq<string> {
    if NormalizeAll(r.files).Some? then NormalizeAll(r.files).value else []
  }

  lemma SuitePlanned(m: Manifest, plan: Planning, ids: seq<string>, id: string)
    requires DistinctIds(m.suites) && id in ids
    requires Some(plan.suites) == SelectedSuites(m, ids)
    requires Records(m, plan.suites, plan.executable, plan.owners, plan.plans)
    requires exists i :: 0 <= i < |m.suites| && m.suites[i].id == id
    ensures id in plan.plans
  {
    hide Planned, PlannedBySome;
    WithIdsDistinct(m.suites, ids);
    var i :| 0 <= i < |m.suites| && m.suites[i].id == id;
    assert m.suites[i] in plan.suites;
    var k :| 0 <= k < |plan.suites| && plan.suites[k] == m.suites[i];
    assert RecordsSuite(m, plan.suites[k], plan.executable, plan.owners, plan.plans);
  }

  /** What verifyReceipts accepts, before any run is claimed. */
  predicate Verified(m: Manifest, files: seq<string>, executable: string -> bool, receipts: seq<Receipt>,
                     requiredKeys: Option<seq<string>>, ownKeys: seq<string>) {
    var named := if requiredKeys.Some? then requiredKeys.value else [];
    var required := if requiredKeys.Some? then requiredKeys.value else ownKeys;
    && PlanAccepted(m, files, SuiteIds(receipts, named), executable)
    && ReceiptsMatch(m, Executables(files, executable), receipts, required)
  }

  // ---- Claiming runs ----

  function RunIds(receipts: seq<Receipt>): seq<string> {
    if receipts == [] then [] else [receipts[0].runId] + RunIds(receipts[1..])
  }

  // The files of the ledger, one for every run that was ever claimed.
  class Ledger {
    var claimed: set<string>

    constructor ()
      ensures claimed == {}
    {
      claimed := {};
    }

    /** Exclusive creation: it succeeds exactly when the file was not there, and it is there afterwards. */
    method Create(runId: string) returns (ok: bool)
      modifies this
      ensures ok <==> runId !in old(claimed)
      ensures claimed == old(claimed) + {runId}
    {
      ok := runId !in claimed;
      claimed := claimed + {runId};
    }

    /** consumeRun for every verified receipt: all are tried, and one failure fails the verification. */
    method ConsumeRuns(receipts: seq<Receipt>) returns (ok: bool)
      modifies this
      ensures claimed == old(claimed) + (set r | r in RunIds(receipts))
      ensures ok <==> Distinct(RunIds(receipts)) && forall r :: r in RunIds(receipts) ==> r !in old(claimed)
    {
      var ids := RunIds(receipts);
      ok := true;
      for k := 0 to |ids|
        invariant claimed == old(claimed) + (set r | r in ids[..k])
        invariant ok <==> Distinct(ids[..k]) && forall r :: r in ids[..k] ==> r !in old(claimed)
      {
        assert ids[..k + 1] == ids[..k] + [ids[k]];
        var created := Create(ids[k]);
        DistinctOneMore(ids[..k], ids[k]);
        ok := ok && created;
      }
      assert ids[..|ids|] == ids;
    }

    /** verifyReceipts; without required keys of the caller's, the manifest's own are required. */
    method VerifyReceipts(m: Manifest, files: seq<string>, executable: string -> bool, receipts: seq<Receipt>,
                          requiredKeys: Option<seq<string>>, ownKeys: seq<string>, consume: bool)
      returns (r: Result<(), Refusal>)
      requires DistinctIds(m.suites)
      modifies this
      ensures r.Ok? <==>
                && Verified(m, files, executable, receipts, requiredKeys, ownKeys)
                && (consume ==>
                      Distinct(RunIds(receipts)) && forall id :: id in RunIds(receipts) ==> id !in old(claimed))
      ensures r == Err(NoPlan) <==>
                !PlanAccepted(m, files, SuiteIds(receipts, if requiredKeys.Some? then requiredKeys.value else []),
                              executable)
      ensures r == Err(AlreadyVerified) <==>
                && consume && Verified(m, files, executable, receipts, requiredKeys, ownKeys)
                && !(Distinct(RunIds(receipts)) && forall id :: id in RunIds(receipts) ==> id !in old(claimed))
      ensures claimed == if consume && Verified(m, files, executable, receipts, requiredKeys, ownKeys)
                         then old(claimed) + (set id | id in RunIds(receipts)) else old(claimed)
    {
      hide PlanAccepted, Planned, Records, SelectedSuites, ReceiptMatches, Distinct, RunIds, ValidKey, Key, SuiteIds,
           HasReceipt, KeysDistinct, Executables;
      var named := if requiredKeys.Some? then requiredKeys.value else [];
      var ids := SuiteIds(receipts, named);
      var planned := PlanFor(m, files, ids, executable);
      if planned.Err? {
        return Err(NoPlan);
      }
      var plan := planned.value;
      var checked := CheckReceipts(m, plan, ids, receipts, named);
      if checked.Err? {
        return Err(checked.error);
      }
      var required := if requiredKeys.Some? then requiredKeys.value else ownKeys;
      var refused := CheckRequired(required, checked.value, receipts);
      if refused.Some? {
        return Err(refused.value);
      }
      if consume {
        var ok := ConsumeRuns(receipts);
        if !ok {
          return Err(AlreadyVerified);
        }
      }
      return Ok(());
    }
  }

  lemma DistinctOneMore(ids: seq<string>, id: string)
    ensures Distinct(ids + [id]) <==> Distinct(ids) && id !in ids
  {
    var all := ids + [id];
    assert forall i :: 0 <= i < |ids| ==> all[i] == ids[i];
    assert all[|ids|] == id;
  }

  /** The checks of one receipt against its suite's plan. */
  method CheckReceipt(m: Manifest, plan: Planning, ids: seq<string>, receipt: Receipt)
    returns (refused: Option<Refusal>)
    requires DistinctIds(m.suites) && receipt.suite in ids
    requires Some(plan.suites) == SelectedSuites(m, ids)
    requires Records(m, plan.suites, plan.executable, plan.owners, plan.plans)
    ensures refused.None? <==> ReceiptMatches(m, plan.executable, receipt)
    ensures refused.Some? ==> !refused.value.AlreadyVerified? && !refused.value.NoPlan?
  {
    hide Planned, Records, SelectedSuites, PlanOf, StableJson.Ascending, NormalizeAll;
    RecordedPlan(m, plan, ids, receipt.suite, NormalizedFiles(receipt));
    if !exists i :: 0 <= i < |m.suites| && m.suites[i].id == receipt.suite {
      return Some(UnknownReceiptSuite);
    }
    if !receipt.sound {
      return Some(Unsound);
    }
    var own := SortedUnique(receipt.files);
    if own.Err? {
      return Some(own.error);
    }
    SuitePlanned(m, plan, ids, receipt.suite);
    if own.value != (if receipt.suite in plan.plans then plan.plans[receipt.suite] else []) {
      return Some(NotThePlan);
    }
    return None;
  }

  /** Every receipt in turn, no two with the same key; the keys seen are the result. */
  method CheckReceipts(m: Manifest, plan: Planning, ids: seq<string>, receipts: seq<Receipt>, named: seq<string>)
    returns (r: Result<set<string>, Refusal>)
    requires DistinctIds(m.suites) && ids == SuiteIds(receipts, named)
    requires Some(plan.suites) == SelectedSuites(m, ids)
    requires Records(m, plan.suites, plan.executable, plan.owners, plan.plans)
    ensures r.Ok? <==>
              && KeysDistinct(receipts)
              && forall i :: 0 <= i < |receipts| ==> ReceiptMatches(m, plan.executable, receipts[i])
    ensures r.Ok? ==> forall key :: key in r.value <==> HasReceipt(receipts, key)
    ensures r.Err? ==> !r.error.AlreadyVerified? && !r.error.NoPlan?
  {
    hide Records, SelectedSuites, ReceiptMatches, Key, SuiteIds;
    var seen: set<string> := {};
    for k := 0 to |receipts|
      invariant forall i :: 0 <= i < k ==> ReceiptMatches(m, plan.executable, receipts[i])
      invariant forall i, j :: 0 <= i < j < k ==> Key(receipts[i]) != Key(receipts[j])
      invariant forall key :: key in seen <==> exists i :: 0 <= i < k && Key(receipts[i]) == key
    {
      var key := Key(receipts[k]);
      if key in seen {
        return Err(Duplicate(key));
      }
      seen := seen + {key};
      SuiteIdsHold(receipts, named, k);
      var refused := CheckReceipt(m, plan, ids, receipts[k]);
      if refused.Some? {
        return Err(refused.value);
      }
    }
    return Ok(seen);
  }

  method CheckRequired(required: seq<string>, seen: set<string>, receipts: seq<Receipt>)
    returns (refused: Option<Refusal>)
    requires forall key :: key in seen <==> HasReceipt(receipts, key)
    ensures refused.None? <==>
              && Distinct(required)
              && forall k :: 0 <= k < |required| ==> ValidKey(required[k]) && HasReceipt(receipts, required[k])
    ensures refused.Some? ==> refused.value == BadSelection || refused.value == Missing
  {
    hide ValidKey, HasReceipt;
    for k := 0 to |required|
      invariant Distinct(required[..k])
      invariant forall i :: 0 <= i < k ==> ValidKey(required[i])
    {
      assert required[..k + 1] == required[..k] + [required[k]];
      DistinctOneMore(required[..k], required[k]);
      var slashed := HasOneInnerSlash(required[k]);
      if !slashed {
        return Some(BadSelection);
      }
      if required[k] in required[..k] {
        var i :| 0 <= i < k && required[..k][i] == required[k];
        assert required[i] == required[k];
        return Some(BadSelection);
      }
    }
    assert required[..|required|] == required;
    for k := 0 to |required|
      invariant forall i :: 0 <= i < k ==> HasReceipt(receipts, required[i])
    {
      if required[k] !in seen {
        return Some(Missing);
      }
    }
    return None;
  }

  method HasOneInnerSlash(key: string) returns (ok: bool)
    ensures ok <==> ValidKey(key)
  {
    var at := |key|;
    for k := 0 to |key|
      invariant at == |key| ==> forall j :: 0 <= j < k ==> key[j] != '/'
      invariant at != |key| ==> 0 <= at < k && key[at] == '/' && forall j :: 0 <= j < k && j != at ==> key[j] != '/'
    {
      if key[k] == '/' {
        if at != |key| {
          return false;
        }
        at := k;
      }
    }
    ok := 0 < at < |key| - 1;
  }

  // ---- What acceptance means ----

  predicate IsReceiptFor(receipts: seq<Receipt>, key: string, i: int) {
    0 <= i < |receipts| && Key(receipts[i]) == key
  }

  // Exactly one receipt has the key, and its files are the plan of its suite.
  ghost predicate HeldByOne(m: Manifest, paths: seq<string>, receipts: seq<Receipt>, key: string) {
    && (exists i :: IsReceiptFor(receipts, key, i))
    && (forall i, j :: IsReceiptFor(receipts, key, i) && IsReceiptFor(receipts, key, j) ==> i == j)
    && (forall i :: IsReceiptFor(receipts, key, i) ==>
          NormalizeAll(receipts[i].files).Some?
          && PlanOf(m, paths, receipts[i].suite, NormalizeAll(receipts[i].files).value))
  }

  /** A verification that accepts holds, for every required key, exactly one receipt with its suite's plan. */
  lemma ExactlyOneReceipt(m: Manifest, files: seq<string>, executable: string -> bool, receipts: seq<Receipt>,
                          requiredKeys: Option<seq<string>>, ownKeys: seq<string>, key: string)
    requires Verified(m, files, executable, receipts, requiredKeys, ownKeys)
    requires key in (if requiredKeys.Some? then requiredKeys.value else ownKeys)
    ensures HeldByOne(m, Executables(files, executable), receipts, key)
  {
    hide NormalizeAll, Key, ValidKey, PlanOf, PlanAccepted, Executables, SuiteIds;
    var required := if requiredKeys.Some? then requiredKeys.value else ownKeys;
    var k :| 0 <= k < |required| && required[k] == key;
    assert HasReceipt(receipts, required[k]);
    var i :| 0 <= i < |receipts| && Key(receipts[i]) == key;
    assert IsReceiptFor(receipts, key, i);
  }

  /**
   An accepting verification: every receipt is sound, its files are normalized paths in ascending order, and they are
   exactly the executable files that its suite wants, by the globs.
   */
  lemma AcceptedReceipts(m: Manifest, files: seq<string>, executable: string -> bool, receipts: seq<Receipt>,
                         requiredKeys: Option<seq<string>>, ownKeys: seq<string>, r: Receipt)
    requires Verified(m, files, executable, receipts, requiredKeys, ownKeys) && r in receipts
    ensures r.sound && NormalizeAll(r.files).Some?
    ensures exists s :: s in m.suites && s.id == r.suite
                        && (Standing(s) ==> HoldsWanted(m, s, files, executable, NormalizeAll(r.files).value))
  {
    hide NormalizeAll, PlanAccepted, Planned, Executables, SuiteIds, Standing, HoldsWanted, KeysDistinct, Distinct,
         ValidKey, HasReceipt;
    var i :| 0 <= i < |receipts| && receipts[i] == r;
    var paths := Executables(files, executable);
    assert ReceiptMatches(m, paths, receipts[i]);
    var k :| 0 <= k < |m.suites| && m.suites[k].id == r.suite
             && NormalizeAll(r.files).value == Planned(m, m.suites[k], paths);
    var s := m.suites[k];
    assert s in m.suites;
    if Standing(s) {
      PlannedHoldsWanted(m, s, files, executable);
    }
  }

  /** A valid key names one suite and one profile only. */
  lemma KeyNamesItsParts(a: Receipt, b: Receipt)
    requires Key(a) == Key(b) && ValidKey(Key(a))
    ensures a.suite == b.suite && a.profile == b.profile
  {
    var key := Key(a);
    assert key[|a.suite|] == '/' && key[|b.suite|] == '/';
    assert |a.suite| == |b.suite|;
    assert a.suite == key[..|a.suite|] && b.suite == key[..|b.suite|];
    assert a.profile == key[|a.suite| + 1..] && b.profile == key[|b.suite| + 1..];
  }

  // ---- Verifications that run at the same time ----

  // One attempt to create a run's file, by one of the verifications.
  datatype Attempt = Attempt(verifier: nat, runId: string)

  // The files that are there after the first attempts.
  function FilesAfter(before: set<string>, attempts: seq<Attempt>, n: nat): set<string>
    requires n <= |attempts|
  {
    if n == 0 then before else FilesAfter(before, attempts, n - 1) + {attempts[n - 1].runId}
  }

  // Whether the attempt at this place creates its file.
  predicate Succeeds(before: set<string>, attempts: seq<Attempt>, at: nat)
    requires at < |attempts|
  {
    attempts[at].runId !in FilesAfter(before, attempts, at)
  }

  // The verification passes if all its attempts succeed.
  predicate Passes(before: set<string>, attempts: seq<Attempt>, verifier: nat) {
    forall at :: 0 <= at < |attempts| && attempts[at].verifier == verifier ==> Succeeds(before, attempts, at)
  }

  /** Exclusive creation decides the attempts, in whatever order they come. */
  method AttemptAll(ledger: Ledger, attempts: seq<Attempt>) returns (won: seq<bool>)
    modifies ledger
    ensures |won| == |attempts| && ledger.claimed == FilesAfter(old(ledger.claimed), attempts, |attempts|)
    ensures forall at :: 0 <= at < |attempts| ==> (won[at] <==> Succeeds(old(ledger.claimed), attempts, at))
  {
    won := [];
    for k := 0 to |attempts|
      invariant |won| == k
      invariant ledger.claimed == FilesAfter(old(ledger.claimed), attempts, k)
      invariant forall at :: 0 <= at < k ==> (won[at] <==> Succeeds(old(ledger.claimed), attempts, at))
    {
      var ok := ledger.Create(attempts[k].runId);
      won := won + [ok];
    }
  }

  lemma {:induction false} FilesHold(before: set<string>, attempts: seq<Attempt>, n: nat, r: string)
    requires n <= |attempts|
    ensures r in FilesAfter(before, attempts, n) <==> r in before || exists k :: 0 <= k < n && attempts[k].runId == r
  {
    if n > 0 {
      FilesHold(before, attempts, n - 1, r);
    }
  }

  /**
   However the attempts of different verifications interleave, no run is claimed by two that pass, nor
   twice by one, and none that was claimed before; and each new run has one attempt that succeeds.
   */
  lemma NoRunPassesTwice(before: set<string>, attempts: seq<Attempt>, i: nat, j: nat)
    requires i < |attempts| && j < |attempts| && i != j
    requires Passes(before, attempts, attempts[i].verifier) && Passes(before, attempts, attempts[j].verifier)
    ensures attempts[i].runId != attempts[j].runId && attempts[i].runId !in before
  {
    hide FilesAfter;
    assert Succeeds(before, attempts, i) && Succeeds(before, attempts, j);
    FilesHold(before, attempts, i, attempts[i].runId);
    FilesHold(before, attempts, j, attempts[j].runId);
  }

  /** Whoever comes first creates the file: some attempt for every run that was not claimed before succeeds. */
  lemma {:induction false} FirstAttemptSucceeds(before: set<string>, attempts: seq<Attempt>, at: nat)
    requires at < |attempts| && attempts[at].runId !in before
    ensures exists first :: 0 <= first <= at && attempts[first].runId == attempts[at].runId
                            && Succeeds(before, attempts, first)
  {
    hide FilesAfter;
    FilesHold(before, attempts, at, attempts[at].runId);
    if k :| 0 <= k < at && attempts[k].runId == attempts[at].runId {
      FirstAttemptSucceeds(before, attempts, k);
    } else {
      assert Succeeds(before, attempts, at);
    }
  }

  // ---- One verification after another ----

  // What one call of the verification is given.
  datatype Submission = Submission(receipts: seq<Receipt>, requiredKeys: Option<seq<string>>)

  predicate Verifies(m: Manifest, files: seq<string>, executable: string -> bool, ownKeys: seq<string>, s: Submission) {
    Verified(m, files, executable, s.receipts, s.requiredKeys, ownKeys)
  }

  // The claimed runs after a history of consuming verifications: one that verifies claims all its runs, even in vain.
  function ClaimedAfter(m: Manifest, files: seq<string>, executable: string -> bool, ownKeys: seq<string>,
                        claimed: set<string>, history: seq<Submission>, n: nat): set<string>
    requires n <= |history|
  {
    if n == 0 then claimed
    else
      ClaimedAfter(m, files, executable, ownKeys, claimed, history, n - 1)
      + Claims(m, files, executable, ownKeys, history[n - 1])
  }

  function Claims(m: Manifest, files: seq<string>, executable: string -> bool, ownKeys: seq<string>,
                  s: Submission): set<string> {
    if Verifies(m, files, executable, ownKeys, s) then set id | id in RunIds(s.receipts) else {}
  }

  predicate PassesAt(m: Manifest, files: seq<string>, executable: string -> bool, ownKeys: seq<string>,
                     claimed: set<string>, history: seq<Submission>, at: nat)
    requires at < |history|
  {
    var ids := RunIds(history[at].receipts);
    && Verifies(m, files, executable, ownKeys, history[at])
    && Distinct(ids)
    && forall id :: id in ids ==> id !in ClaimedAfter(m, files, executable, ownKeys, claimed, history, at)
  }

  /** A history of calls of verifyReceipts that consume: which of them pass. */
  method VerifyInTurn(ledger: Ledger, m: Manifest, files: seq<string>, executable: string -> bool, ownKeys: seq<string>,
                      history: seq<Submission>)
    returns (passed: seq<bool>)
    requires DistinctIds(m.suites)
    modifies ledger
    ensures |passed| == |history|
    ensures forall at :: 0 <= at < |history| ==>
              (passed[at] <==> PassesAt(m, files, executable, ownKeys, old(ledger.claimed), history, at))
    ensures ledger.claimed == ClaimedAfter(m, files, executable, ownKeys, old(ledger.claimed), history, |history|)
  {
    hide Verified, RunIds, Distinct;
    passed := [];
    for k := 0 to |history|
      invariant |passed| == k
      invariant ledger.claimed == ClaimedAfter(m, files, executable, ownKeys, old(ledger.claimed), history, k)
      invariant forall at :: 0 <= at < k ==>
                  (passed[at] <==> PassesAt(m, files, executable, ownKeys, old(ledger.claimed), history, at))
    {
      var r := ledger.VerifyReceipts(m, files, executable, history[k].receipts, history[k].requiredKeys, ownKeys, true);
      passed := passed + [r.Ok?];
    }
  }

  lemma {:induction false} ClaimedStays(m: Manifest, files: seq<string>, executable: string -> bool,
                                        ownKeys: seq<string>, claimed: set<string>, history: seq<Submission>,
                                        at: nat, n: nat, r: string)
    requires at < n <= |history| && Verifies(m, files, executable, ownKeys, history[at])
    requires r in RunIds(history[at].receipts)
    ensures r in ClaimedAfter(m, files, executable, ownKeys, claimed, history, n)
    decreases n
  {
    hide Verified, RunIds;
    if at < n - 1 {
      ClaimedStays(m, files, executable, ownKeys, claimed, history, at, n - 1, r);
    }
  }

  /** Over any history of calls, a run that one verified, even in vain, is in no later call that passes. */
  lemma NoRunIsVerifiedTwice(m: Manifest, files: seq<string>, executable: string -> bool, ownKeys: seq<string>,
                             claimed: set<string>, history: seq<Submission>, first: nat, second: nat, r: string)
    requires first < second < |history| && Verifies(m, files, executable, ownKeys, history[first])
    requires r in RunIds(history[first].receipts)
    requires PassesAt(m, files, executable, ownKeys, claimed, history, second)
    ensures r !in RunIds(history[second].receipts)
  {
    hide Verified, RunIds, ClaimedAfter, Distinct;
    ClaimedStays(m, files, executable, ownKeys, claimed, history, first, second, r);
  }
}
