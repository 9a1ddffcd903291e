/**
 * The guest-to-user merge. An authenticated caller whose request still carries a guest
 * cookie gets every record the guest owns, in every mergeable model, rewritten to the
 * caller's email inside one transaction, together with one ledger entry; the cookie is then
 * deleted on a best-effort basis. A ledger entry for the pair short-circuits the whole merge.
 */
module Merge {
  import opened Common
  import opened Identity
  import opened BaseSchema
  import opened MergeLog
  import opened SafeAction

  /** The registry of mergeable models, by collection name (which is also the name the ledger records). */
  const MERGEABLE_MODELS: seq<string> := ["Note"]

  const AUTH_REQUIRED := "Authentication required to merge guest data"
  const LOG_VALIDATION_FAILED := "GuestMergeLog validation failed: "

  /** `MergeResult`. */
  datatype MergeResult = MergeResult(mergedCount: int, alreadyMerged: bool)

  /** Where storage throws during a call, if it does, and the message of the `Error` it throws. */
  datatype StorageFault =
    | NoFault
    | ConnectFails(message: string)
    | LookupFails(message: string)
    | UpdateFails(model: nat, message: string)
    | LedgerWriteFails(message: string)

  /** Every collection's records, by model name. */
  type Collections = map<string, seq<Doc>>

  /** What a call can read or change: the records, the ledger, and the request's cookies. */
  datatype State = State(collections: Collections, ledger: Ledger, cookies: CookieJar)

  /** A call's effect: the state it leaves and what it returns. */
  datatype Step = Step(state: State, result: ActionResult<MergeResult>)

  predicate HasMergeableCollections(cols: Collections)
  {
    forall j :: 0 <= j < |MERGEABLE_MODELS| ==> MERGEABLE_MODELS[j] in cols
  }

  predicate Distinct(names: seq<string>)
  {
    forall i, j :: 0 <= i < j < |names| ==> names[i] != names[j]
  }

  lemma RegistryDistinct()
    ensures Distinct(MERGEABLE_MODELS)
  {
  }

  // ---- What the transaction computes

  /** The collections once the first `n` mergeable models have been rewritten from `guestId` to `userId`. */
  function MigratedPrefix(cols: Collections, n: nat, guestId: string, userId: string): Collections
    requires n <= |MERGEABLE_MODELS|
  {
    map k | k in cols :: if k in MERGEABLE_MODELS[..n] then UpdateManyOwner(cols[k], guestId, userId) else cols[k]
  }

  /** The `mergedModels` items of the first `n` mergeable models, in registry order. */
  function CountsPrefix(cols: Collections, n: nat, guestId: string, userId: string): seq<ModelCount>
    requires n <= |MERGEABLE_MODELS| && HasMergeableCollections(cols)
  {
    seq(n, j requires 0 <= j < n => ModelCount(MERGEABLE_MODELS[j], ModifiedCount(cols[MERGEABLE_MODELS[j]], guestId)))
  }

  /** One transaction step: the count of model `n` comes next in `mergedModels`. */
  lemma CountsPrefixStep(cols: Collections, n: nat, guestId: string, userId: string)
    requires n < |MERGEABLE_MODELS| && HasMergeableCollections(cols)
    ensures var name := MERGEABLE_MODELS[n];
      CountsPrefix(cols, n + 1, guestId, userId)
      == CountsPrefix(cols, n, guestId, userId) + [ModelCount(name, ModifiedCount(cols[name], guestId))]
  {
  }

  /** The sum of the items' counts. */
  function TotalCount(ms: seq<ModelCount>): int
    decreases |ms|
  {
    if ms == [] then 0 else TotalCount(ms[..|ms| - 1]) + ms[|ms| - 1].count
  }

  lemma TotalCountSnoc(ms: seq<ModelCount>, m: ModelCount)
    ensures TotalCount(ms + [m]) == TotalCount(ms) + m.count
  {
    assert (ms + [m])[..|ms|] == ms;
  }

  /** How many records `o` owns across the named collections. */
  function OwnedAcross(cols: Collections, names: seq<string>, o: string): nat
    requires forall j :: 0 <= j < |names| ==> names[j] in cols
    decreases |names|
  {
    if names == [] then 0
    else OwnedAcross(cols, names[..|names| - 1], o) + CountOwnedBy(cols[names[|names| - 1]], o)
  }

  /** One transaction step: rewriting model `n` next extends the prefix by one. */
  lemma MigratedPrefixStep(cols: Collections, n: nat, guestId: string, userId: string)
    requires n < |MERGEABLE_MODELS| && HasMergeableCollections(cols)
    ensures var name := MERGEABLE_MODELS[n];
      var tx := MigratedPrefix(cols, n, guestId, userId);
      name in tx && tx[name] == cols[name]
      && tx[name := UpdateManyOwner(tx[name], guestId, userId)] == MigratedPrefix(cols, n + 1, guestId, userId)
  {
    RegistryDistinct();
    var name := MERGEABLE_MODELS[n];
    assert name !in MERGEABLE_MODELS[..n];
    assert MERGEABLE_MODELS[..n + 1] == MERGEABLE_MODELS[..n] + [name];
  }

  // ---- The action, as a function of the state

  /**
   * The message of the error an invalid ledger entry throws. Only the failing paths are listed,
   * not the ODM's per-validator wording. `NewEntryValid` shows that no merge reaches it.
   */
  function LogValidationMessage(errs: seq<string>): string
  {
    LOG_VALIDATION_FAILED + Join(errs, ", ")
  }

  /** The ledger entry a new merge writes. */
  function NewEntry(cols: Collections, guestId: string, userId: string): (e: LogEntry)
    requires HasMergeableCollections(cols)
    ensures IsFor(e, guestId, userId)
    ensures |e.mergedModels| == |MERGEABLE_MODELS|
    ensures forall j :: 0 <= j < |MERGEABLE_MODELS| ==> e.mergedModels[j].model == MERGEABLE_MODELS[j]
    ensures e.totalMerged == OwnedAcross(cols, MERGEABLE_MODELS, guestId)
  {
    TotalCountIsGuestRecords(cols, |MERGEABLE_MODELS|, guestId, userId);
    assert MERGEABLE_MODELS[..|MERGEABLE_MODELS|] == MERGEABLE_MODELS;
    var counts := CountsPrefix(cols, |MERGEABLE_MODELS|, guestId, userId);
    LogEntry(guestId, userId, counts, TotalCount(counts))
  }

  /** A ledger entry for the pair exists: only the cookie is deleted, and the recorded total is reported. */
  function AlreadyMerged(s: State, existing: LogEntry, cookieFault: Option<string>): (State, Outcome<MergeResult>)
  {
    if cookieFault.Some? then (s, Threw(cookieFault.value))
    else (s.(cookies := s.cookies - {GUEST_COOKIE}), Returned(MergeResult(existing.totalMerged, true)))
  }

  /**
   * No ledger entry for the pair: the transaction rewrites every mergeable model and writes the
   * entry, all or nothing; after the commit the cookie is deleted unless that throws.
   */
  function NewMerge(s: State, guestId: string, userId: string, fault: StorageFault, cookieFault: Option<string>): (State, Outcome<MergeResult>)
    requires HasMergeableCollections(s.collections)
  {
    if fault.UpdateFails? && fault.model < |MERGEABLE_MODELS| then (s, Threw(fault.message))
    else if fault.LedgerWriteFails? then (s, Threw(fault.message))
    else
      var entry := NewEntry(s.collections, guestId, userId);
      match Create(s.ledger, entry)
      case Err(errs) => (s, Threw(LogValidationMessage(errs)))
      case Ok(ledger') =>
        var committed := State(MigratedPrefix(s.collections, |MERGEABLE_MODELS|, guestId, userId),
                               ledger',
                               if cookieFault.Some? then s.cookies else s.cookies - {GUEST_COOKIE});
        (committed, Returned(MergeResult(entry.totalMerged, false)))
  }

  /**
   * The handler of `mergeGuestData`: the state it leaves and how it finishes. `session` is the
   * session's email, `fault` where storage throws, and `cookieFault` the message `cookieStore.delete`
   * throws, if it does.
   */
  function Handler(s: State, session: Session, fault: StorageFault, cookieFault: Option<string>): (State, Outcome<MergeResult>)
    requires HasMergeableCollections(s.collections)
  {
    if !Truthy(session) then (s, Threw(AUTH_REQUIRED))
    else
      var guestId := GetGuestSessionId(s.cookies);
      if !Truthy(guestId) then (s, Returned(MergeResult(0, false)))
      else if fault.ConnectFails? || fault.LookupFails? then (s, Threw(fault.message))
      else
        match FindEntry(s.ledger, guestId.value, session.value)
        case Some(existing) => AlreadyMerged(s, existing, cookieFault)
        case None => NewMerge(s, guestId.value, session.value, fault, cookieFault)
  }

  /**
   * The loop inside the transaction: `updateMany` on each mergeable model in registry order,
   * against a working copy of the collections. It stops at the model whose update throws.
   */
  method RewriteOwners(cols: Collections, guestId: string, userId: string, fault: StorageFault)
    returns (tx: Collections, mergedModels: seq<ModelCount>, totalMerged: int, failure: Option<string>)
    requires HasMergeableCollections(cols)
    ensures failure.Some? <==> fault.UpdateFails? && fault.model < |MERGEABLE_MODELS|
    ensures failure.Some? ==> failure.value == fault.message
    ensures failure.None? ==> tx == MigratedPrefix(cols, |MERGEABLE_MODELS|, guestId, userId)
    ensures failure.None? ==> mergedModels == CountsPrefix(cols, |MERGEABLE_MODELS|, guestId, userId)
    ensures failure.None? ==> totalMerged == TotalCount(mergedModels)
  {
    tx := cols;
    totalMerged := 0;
    mergedModels := [];
    var i := 0;
    while i < |MERGEABLE_MODELS|
      invariant 0 <= i <= |MERGEABLE_MODELS|
      invariant !(fault.UpdateFails? && fault.model < i)
      invariant tx == MigratedPrefix(cols, i, guestId, userId)
      invariant mergedModels == CountsPrefix(cols, i, guestId, userId)
      invariant totalMerged == TotalCount(mergedModels)
    {
      if fault.UpdateFails? && fault.model == i {
        return tx, mergedModels, totalMerged, Some(fault.message);
      }
      var name := MERGEABLE_MODELS[i];
      MigratedPrefixStep(cols, i, guestId, userId);
      CountsPrefixStep(cols, i, guestId, userId);
      var count := ModifiedCount(tx[name], guestId);
      tx := tx[name := UpdateManyOwner(tx[name], guestId, userId)];
      TotalCountSnoc(mergedModels, ModelCount(name, count));
      totalMerged := totalMerged + count;
      mergedModels := mergedModels + [ModelCount(name, count)];
      i := i + 1;
    }
    failure := None;
  }

  /** `mergeGuestData()`: the handler behind the safe-action wrapper. */
  function MergeSpec(s: State, session: Session, fault: StorageFault, cookieFault: Option<string>): Step
    requires HasMergeableCollections(s.collections)
  {
    var (s', outcome) := Handler(s, session, fault, cookieFault);
    Step(s', SafeNoInputAction(outcome))
  }

  /** The store the action works on. */
  class Store {
    var collections: Collections
    var ledger: Ledger
    var cookies: CookieJar

    ghost predicate Valid()
      reads this
    {
      HasMergeableCollections(collections)
    }

    function Snapshot(): State
      reads this
    {
      State(collections, ledger, cookies)
    }

    constructor (collections: Collections, ledger: Ledger, cookies: CookieJar)
      requires HasMergeableCollections(collections)
      ensures Valid()
      ensures Snapshot() == State(collections, ledger, cookies)
    {
      this.collections := collections;
      this.ledger := ledger;
      this.cookies := cookies;
    }

    /** The handler, step by step: the transaction rewrites a working copy and commits it only at the end. */
    method Handle(session: Session, fault: StorageFault, cookieFault: Option<string>) returns (outcome: Outcome<MergeResult>)
      requires Valid()
      modifies this
      ensures Valid()
      ensures (Snapshot(), outcome) == Handler(old(Snapshot()), session, fault, cookieFault)
    {
      if !Truthy(session) {
        return Threw(AUTH_REQUIRED);
      }
      var userEmail := session.value;
      var guestCookie := GetGuestSessionId(cookies);
      if !Truthy(guestCookie) {
        return Returned(MergeResult(0, false));
      }
      var guestId := guestCookie.value;
      if fault.ConnectFails? || fault.LookupFails? {
        return Threw(fault.message);
      }
      var existingLog := FindEntry(ledger, guestId, userEmail);
      if existingLog.Some? {
        if cookieFault.Some? {
          return Threw(cookieFault.value);
        }
        cookies := cookies - {GUEST_COOKIE};
        return Returned(MergeResult(existingLog.value.totalMerged, true));
      }
      outcome := Transact(guestId, userEmail, fault, cookieFault);
    }

    /** The transaction and what follows its commit. */
    method Transact(guestId: string, userEmail: string, fault: StorageFault, cookieFault: Option<string>)
      returns (outcome: Outcome<MergeResult>)
      requires Valid()
      modifies this
      ensures Valid()
      ensures (Snapshot(), outcome) == NewMerge(old(Snapshot()), guestId, userEmail, fault, cookieFault)
    {
      var txCollections, mergedModels, totalMerged, failure := RewriteOwners(collections, guestId, userEmail, fault);
      if failure.Some? {
        return Threw(failure.value);  // aborted: nothing was committed
      }
      if fault.LedgerWriteFails? {
        return Threw(fault.message);  // aborted: nothing was committed
      }
      var created := Create(ledger, LogEntry(guestId, userEmail, mergedModels, totalMerged));
      if created.Err? {
        return Threw(LogValidationMessage(created.error));
      }
      assert txCollections.Keys == collections.Keys;
      // Commit: the rewritten collections and the new entry become visible together.
      collections := txCollections;
      ledger := created.value;
      // After the commit, deleting the cookie is best effort: a failure is only logged.
      if cookieFault.None? {
        cookies := cookies - {GUEST_COOKIE};
      }
      return Returned(MergeResult(totalMerged, false));
    }

    /** `mergeGuestData()`. */
    method MergeGuestData(session: Session, fault: StorageFault, cookieFault: Option<string>) returns (r: ActionResult<MergeResult>)
      requires Valid()
      modifies this
      ensures Valid()
      ensures Step(Snapshot(), r) == MergeSpec(old(Snapshot()), session, fault, cookieFault)
    {
      var outcome := Handle(session, fault, cookieFault);
      r := SafeNoInputAction(outcome);
    }
  }

  // ---- Properties of the action

  /** A storage fault that leaves the transaction free to commit (an update fault past the registry never fires). */
  predicate Commits(fault: StorageFault)
  {
    fault.NoFault? || (fault.UpdateFails? && fault.model >= |MERGEABLE_MODELS|)
  }

  /** The call reaches the transaction: an authenticated caller, a guest cookie, storage up, and no entry yet. */
  predicate ReachesTransaction(s: State, email: string, fault: StorageFault)
  {
    && email != ""
    && Truthy(GetGuestSessionId(s.cookies))
    && !fault.ConnectFails? && !fault.LookupFails?
    && FindEntry(s.ledger, s.cookies[GUEST_COOKIE], email).None?
  }

  /** A caller without an email is refused with "Authentication required", and nothing changes. */
  lemma UnauthenticatedRejected(s: State, session: Session, fault: StorageFault, cookieFault: Option<string>)
    requires HasMergeableCollections(s.collections)
    requires !Truthy(session)
    ensures MergeSpec(s, session, fault, cookieFault) == Step(s, Failure(AUTH_REQUIRED))
    ensures "Authentication required" <= MergeSpec(s, session, fault, cookieFault).result.error
  {
  }

  /** Without a guest cookie there is nothing to merge: zero, not already merged, and nothing read or written. */
  lemma NoGuestCookieMergesNothing(s: State, email: string, fault: StorageFault, cookieFault: Option<string>)
    requires HasMergeableCollections(s.collections)
    requires email != "" && !Truthy(GetGuestSessionId(s.cookies))
    ensures MergeSpec(s, Some(email), fault, cookieFault) == Step(s, Success(MergeResult(0, false)))
  {
  }

  /**
   * With a ledger entry for the pair, the cookie is deleted and the recorded total is reported,
   * whatever the collections now hold; no record and no entry changes. A failing delete here
   * is not caught, so its error is what the caller sees.
   */
  lemma AlreadyMergedShortCircuits(s: State, email: string, e: LogEntry, fault: StorageFault, cookieFault: Option<string>)
    requires HasMergeableCollections(s.collections)
    requires email != "" && Truthy(GetGuestSessionId(s.cookies))
    requires !fault.ConnectFails? && !fault.LookupFails?
    requires FindEntry(s.ledger, s.cookies[GUEST_COOKIE], email) == Some(e)
    ensures cookieFault.None? ==>
      MergeSpec(s, Some(email), fault, cookieFault)
        == Step(s.(cookies := s.cookies - {GUEST_COOKIE}), Success(MergeResult(e.totalMerged, true)))
    ensures cookieFault.Some? ==>
      MergeSpec(s, Some(email), fault, cookieFault) == Step(s, Failure(cookieFault.value))
  {
  }

  /** Any failure leaves records, ledger and cookies exactly as they were: nothing is ever half-merged. */
  lemma FailureChangesNothing(s: State, session: Session, fault: StorageFault, cookieFault: Option<string>)
    requires HasMergeableCollections(s.collections)
    requires MergeSpec(s, session, fault, cookieFault).result.Failure?
    ensures MergeSpec(s, session, fault, cookieFault).state == s
  {
  }

  /** A throwing update or ledger write inside the transaction rolls everything back and reports the error. */
  lemma TransactionFaultRollsBack(s: State, email: string, fault: StorageFault, cookieFault: Option<string>)
    requires HasMergeableCollections(s.collections)
    requires ReachesTransaction(s, email, fault)
    requires fault.LedgerWriteFails? || (fault.UpdateFails? && fault.model < |MERGEABLE_MODELS|)
    ensures MergeSpec(s, Some(email), fault, cookieFault) == Step(s, Failure(fault.message))
  {
  }

  /** Non-negative counts sum to a non-negative total. */
  lemma {:induction false} TotalCountNonNegative(ms: seq<ModelCount>)
    requires forall j :: 0 <= j < |ms| ==> ms[j].count >= 0
    ensures TotalCount(ms) >= 0
    decreases |ms|
  {
    if ms != [] {
      TotalCountNonNegative(ms[..|ms| - 1]);
    }
  }

  /** The entry a merge writes passes the ledger's validation whenever both ids are present. */
  lemma NewEntryValid(cols: Collections, guestId: string, userId: string)
    requires HasMergeableCollections(cols)
    requires guestId != "" && userId != ""
    ensures ValidEntry(NewEntry(cols, guestId, userId))
  {
    TotalCountNonNegative(CountsPrefix(cols, |MERGEABLE_MODELS|, guestId, userId));
  }

  /**
   * The total over the first `n` models is the number of records the guest owns in them,
   * archived ones included; this holds even when guest and user are the same id.
   */
  lemma {:induction false} TotalCountIsGuestRecords(cols: Collections, n: nat, guestId: string, userId: string)
    requires n <= |MERGEABLE_MODELS| && HasMergeableCollections(cols)
    ensures TotalCount(CountsPrefix(cols, n, guestId, userId)) == OwnedAcross(cols, MERGEABLE_MODELS[..n], guestId)
    decreases n
  {
    var counts := CountsPrefix(cols, n, guestId, userId);
    if n > 0 {
      assert counts[..n - 1] == CountsPrefix(cols, n - 1, guestId, userId);
      assert MERGEABLE_MODELS[..n][..n - 1] == MERGEABLE_MODELS[..n - 1];
      ModifiedCountIsOwned(cols[MERGEABLE_MODELS[n - 1]], guestId);
      TotalCountIsGuestRecords(cols, n - 1, guestId, userId);
    }
  }

  /**
   * After the rewrite the user owns, across the first `n` models, what it owned before plus the
   * merged total, when guest and user differ.
   */
  lemma {:induction false} UserGainsTotal(cols: Collections, n: nat, guestId: string, userId: string)
    requires n <= |MERGEABLE_MODELS| && HasMergeableCollections(cols)
    ensures var after := MigratedPrefix(cols, |MERGEABLE_MODELS|, guestId, userId);
      HasMergeableCollections(after)
      && (guestId != userId ==>
            OwnedAcross(after, MERGEABLE_MODELS[..n], userId)
            == OwnedAcross(cols, MERGEABLE_MODELS[..n], userId) + TotalCount(CountsPrefix(cols, n, guestId, userId)))
    decreases n
  {
    var after := MigratedPrefix(cols, |MERGEABLE_MODELS|, guestId, userId);
    if n > 0 {
      var name := MERGEABLE_MODELS[n - 1];
      assert MERGEABLE_MODELS[..n][..n - 1] == MERGEABLE_MODELS[..n - 1];
      assert CountsPrefix(cols, n, guestId, userId)[..n - 1] == CountsPrefix(cols, n - 1, guestId, userId);
      assert name in MERGEABLE_MODELS[..|MERGEABLE_MODELS|];
      assert after[name] == UpdateManyOwner(cols[name], guestId, userId);
      UpdateManyMovesCount(cols[name], guestId, userId);
      UserGainsTotal(cols, n - 1, guestId, userId);
    }
  }

  /**
   * A merge that commits rewrites, in every mergeable model, each record the guest owned
   * (archived or not) to the user and leaves every other record and every other collection alone;
   * the guest owns nothing afterwards unless guest and user are the same id.
   */
  lemma MergeTransfersOwnership(s: State, email: string, fault: StorageFault, cookieFault: Option<string>)
    requires HasMergeableCollections(s.collections)
    requires ReachesTransaction(s, email, fault) && Commits(fault)
    ensures var after := MergeSpec(s, Some(email), fault, cookieFault).state.collections;
      var guestId := s.cookies[GUEST_COOKIE];
      && after.Keys == s.collections.Keys
      && (forall j :: 0 <= j < |MERGEABLE_MODELS| ==>
            after[MERGEABLE_MODELS[j]] == UpdateManyOwner(s.collections[MERGEABLE_MODELS[j]], guestId, email))
      && (forall k :: k in s.collections && k !in MERGEABLE_MODELS ==> after[k] == s.collections[k])
      && (guestId != email ==> forall j :: 0 <= j < |MERGEABLE_MODELS| ==> CountOwnedBy(after[MERGEABLE_MODELS[j]], guestId) == 0)
  {
    var guestId := s.cookies[GUEST_COOKIE];
    NewEntryValid(s.collections, guestId, email);
    var after := MergeSpec(s, Some(email), fault, cookieFault).state.collections;
    assert after == MigratedPrefix(s.collections, |MERGEABLE_MODELS|, guestId, email);
    assert MERGEABLE_MODELS[..|MERGEABLE_MODELS|] == MERGEABLE_MODELS;
    if guestId != email {
      forall j | 0 <= j < |MERGEABLE_MODELS|
        ensures CountOwnedBy(after[MERGEABLE_MODELS[j]], guestId) == 0
      {
        UpdateManyLeavesNothing(s.collections[MERGEABLE_MODELS[j]], guestId, email);
      }
    }
  }

  /**
   * What `find` shows after a committed merge with distinct ids: in every mergeable model the
   * user's query lists its own unarchived records plus the guest's, and the guest's lists none.
   */
  lemma MergeChangesFindResults(s: State, email: string, fault: StorageFault, cookieFault: Option<string>, j: nat)
    requires HasMergeableCollections(s.collections)
    requires ReachesTransaction(s, email, fault) && Commits(fault)
    requires j < |MERGEABLE_MODELS| && s.cookies[GUEST_COOKIE] != email
    ensures var after := MergeSpec(s, Some(email), fault, cookieFault).state.collections;
      var guestId := s.cookies[GUEST_COOKIE];
      var name := MERGEABLE_MODELS[j];
      && name in after
      && |Select(after[name], "find", map[OWNER_ID := Str(email)])|
         == CountLiveOwnedBy(s.collections[name], email) + CountLiveOwnedBy(s.collections[name], guestId)
      && |Select(after[name], "find", map[OWNER_ID := Str(guestId)])| == 0
  {
    var guestId := s.cookies[GUEST_COOKIE];
    var name := MERGEABLE_MODELS[j];
    MergeTransfersOwnership(s, email, fault, cookieFault);
    var after := MergeSpec(s, Some(email), fault, cookieFault).state.collections;
    assert after[name] == UpdateManyOwner(s.collections[name], guestId, email);
    UpdateManyMovesLive(s.collections[name], guestId, email);
    FindByOwnerCount(after[name], email);
    FindByOwnerCount(after[name], guestId);
  }

  /**
   * A merge that commits appends exactly one ledger entry for the pair; it has one item per
   * mergeable model in registry order, zero counts included, and its total is both the sum of
   * the items, the number of records the guest owned, and the count the caller is told.
   */
  lemma MergeRecordsEntry(s: State, email: string, fault: StorageFault, cookieFault: Option<string>)
    requires HasMergeableCollections(s.collections)
    requires ReachesTransaction(s, email, fault) && Commits(fault)
    ensures var step := MergeSpec(s, Some(email), fault, cookieFault);
      var guestId := s.cookies[GUEST_COOKIE];
      var e := NewEntry(s.collections, guestId, email);
      && step.state.ledger == s.ledger + [e]
      && ValidEntry(e) && e.guestId == guestId && e.userId == email
      && |e.mergedModels| == |MERGEABLE_MODELS|
      && (forall j :: 0 <= j < |MERGEABLE_MODELS| ==>
            e.mergedModels[j] == ModelCount(MERGEABLE_MODELS[j], ModifiedCount(s.collections[MERGEABLE_MODELS[j]], guestId)))
      && e.totalMerged == TotalCount(e.mergedModels)
      && e.totalMerged == OwnedAcross(s.collections, MERGEABLE_MODELS, guestId)
      && step.result == Success(MergeResult(e.totalMerged, false))
  {
    var guestId := s.cookies[GUEST_COOKIE];
    NewEntryValid(s.collections, guestId, email);
    TotalCountIsGuestRecords(s.collections, |MERGEABLE_MODELS|, guestId, email);
    assert MERGEABLE_MODELS[..|MERGEABLE_MODELS|] == MERGEABLE_MODELS;
  }

  /**
   * Records are conserved: after a committed merge the user owns what it owned plus the merged
   * total. When the guest cookie is the email itself, no record moves, yet the reported count is
   * every record that id already owns, since each one gets a new `updatedAt`.
   */
  lemma MergeConservesRecords(s: State, email: string, fault: StorageFault, cookieFault: Option<string>)
    requires HasMergeableCollections(s.collections)
    requires ReachesTransaction(s, email, fault) && Commits(fault)
    ensures var step := MergeSpec(s, Some(email), fault, cookieFault);
      var guestId := s.cookies[GUEST_COOKIE];
      HasMergeableCollections(step.state.collections)
      && step.result.Success?
      && (guestId != email ==>
            OwnedAcross(step.state.collections, MERGEABLE_MODELS, email)
            == OwnedAcross(s.collections, MERGEABLE_MODELS, email) + step.result.data.mergedCount)
      && (guestId == email ==>
            step.state.collections == s.collections
            && step.result.data.mergedCount == OwnedAcross(s.collections, MERGEABLE_MODELS, email))
  {
    var guestId := s.cookies[GUEST_COOKIE];
    NewEntryValid(s.collections, guestId, email);
    UserGainsTotal(s.collections, |MERGEABLE_MODELS|, guestId, email);
    TotalCountIsGuestRecords(s.collections, |MERGEABLE_MODELS|, guestId, email);
    assert MERGEABLE_MODELS[..|MERGEABLE_MODELS|] == MERGEABLE_MODELS;
    if guestId == email {
      var after := MigratedPrefix(s.collections, |MERGEABLE_MODELS|, guestId, email);
      forall k | k in s.collections
        ensures after[k] == s.collections[k]
      {
        UpdateManyMovesCount(s.collections[k], guestId, email);
      }
    }
  }

  /** A failing cookie delete after the commit changes nothing but the cookie: same result, records and ledger. */
  lemma CookieFailureAfterCommitHarmless(s: State, email: string, fault: StorageFault, message: string)
    requires HasMergeableCollections(s.collections)
    requires ReachesTransaction(s, email, fault) && Commits(fault)
    ensures var kept := MergeSpec(s, Some(email), fault, Some(message));
      var cleared := MergeSpec(s, Some(email), fault, None);
      && kept.result == cleared.result && kept.result.Success?
      && kept.state.collections == cleared.state.collections
      && kept.state.ledger == cleared.state.ledger
      && kept.state.cookies == s.cookies
      && cleared.state.cookies == s.cookies - {GUEST_COOKIE}
  {
    NewEntryValid(s.collections, s.cookies[GUEST_COOKIE], email);
  }

  /**
   * Sequential idempotence: when the first merge's cookie delete fails and the cookie lingers,
   * a second call with the same session reports the same count as already merged, read from
   * the ledger even if the records changed in between, and the ledger keeps one entry for the pair.
   */
  lemma SecondCallReadsLedger(s: State, email: string, message: string, between: Collections, cookieFault: Option<string>)
    requires HasMergeableCollections(s.collections) && HasMergeableCollections(between)
    requires ReachesTransaction(s, email, NoFault)
    ensures var first := MergeSpec(s, Some(email), NoFault, Some(message));
      var again := first.state.(collections := between);
      var second := MergeSpec(again, Some(email), NoFault, cookieFault);
      var guestId := s.cookies[GUEST_COOKIE];
      && first.result.Success? && !first.result.data.alreadyMerged
      && first.state.cookies == s.cookies
      && (cookieFault.None? ==> second.result == Success(MergeResult(first.result.data.mergedCount, true)))
      && second.state.collections == between
      && second.state.ledger == first.state.ledger
      && CountFor(second.state.ledger, guestId, email) == 1
  {
    var guestId := s.cookies[GUEST_COOKIE];
    var e := NewEntry(s.collections, guestId, email);
    NewEntryValid(s.collections, guestId, email);
    var first := MergeSpec(s, Some(email), NoFault, Some(message));
    assert first.state.ledger == s.ledger + [e];
    assert FindEntry(first.state.ledger, guestId, email) == Some(e) by {
      assert first.state.ledger[|s.ledger|] == e;
      FindEntryNoneIffNoCount(s.ledger, guestId, email);
      FirstEntryIsAppended(s.ledger, e, guestId, email);
    }
    FindEntryNoneIffNoCount(s.ledger, guestId, email);
    CountForAppend(s.ledger, e, guestId, email);
  }

  /** With no entry for the pair before, the lookup after appending an entry for it finds that entry. */
  lemma {:induction false} FirstEntryIsAppended(ledger: Ledger, e: LogEntry, guestId: string, userId: string)
    requires FindEntry(ledger, guestId, userId).None? && IsFor(e, guestId, userId)
    ensures FindEntry(ledger + [e], guestId, userId) == Some(e)
    decreases |ledger|
  {
    if ledger == [] {
    } else {
      assert (ledger + [e])[1..] == ledger[1..] + [e];
      assert !IsFor(ledger[0], guestId, userId);
      FirstEntryIsAppended(ledger[1..], e, guestId, userId);
    }
  }

  /** No two ledger entries record the same (guest, user) pair. */
  predicate UniquePairs(ledger: Ledger)
  {
    forall i, j :: 0 <= i < j < |ledger| ==> !IsFor(ledger[j], ledger[i].guestId, ledger[i].userId)
  }

  /** Every ledger entry passes its validation. */
  predicate AllValid(ledger: Ledger)
  {
    forall i :: 0 <= i < |ledger| ==> ValidEntry(ledger[i])
  }

  /**
   * The ledger is append-only, at most one entry per call, and under sequential calls it keeps
   * one entry per pair and only valid entries.
   */
  lemma MergeKeepsLedgerInvariants(s: State, session: Session, fault: StorageFault, cookieFault: Option<string>)
    requires HasMergeableCollections(s.collections)
    requires UniquePairs(s.ledger) && AllValid(s.ledger)
    ensures var ledger' := MergeSpec(s, session, fault, cookieFault).state.ledger;
      && s.ledger <= ledger' && |ledger'| <= |s.ledger| + 1
      && UniquePairs(ledger') && AllValid(ledger')
      && HasMergeableCollections(MergeSpec(s, session, fault, cookieFault).state.collections)
  {
    var step := MergeSpec(s, session, fault, cookieFault);
    if step.state.ledger != s.ledger {
      var guestId := s.cookies[GUEST_COOKIE];
      var email := session.value;
      var e := NewEntry(s.collections, guestId, email);
      NewEntryValid(s.collections, guestId, email);
      assert step.state.ledger == s.ledger + [e];
      forall i | 0 <= i < |s.ledger|
        ensures !IsFor(e, s.ledger[i].guestId, s.ledger[i].userId)
      {
        assert !IsFor(s.ledger[i], guestId, email);
      }
    }
  }

  /** The only way records change is a committed merge, and that writes its ledger entry with them. */
  lemma RecordsNeverMoveWithoutEntry(s: State, session: Session, fault: StorageFault, cookieFault: Option<string>)
    requires HasMergeableCollections(s.collections)
    requires MergeSpec(s, session, fault, cookieFault).state.collections != s.collections
    ensures var step := MergeSpec(s, session, fault, cookieFault);
      && step.result.Success? && !step.result.data.alreadyMerged
      && Truthy(session) && GUEST_COOKIE in s.cookies
      && step.state.ledger == s.ledger + [NewEntry(s.collections, s.cookies[GUEST_COOKIE], session.value)]
  {
  }

  /** The records a merge hands over end up with the same owner identity resolution gives the signed-in caller. */
  lemma MergeTargetsResolvedOwner(s: State, email: string, fault: StorageFault, cookieFault: Option<string>)
    requires HasMergeableCollections(s.collections)
    requires ReachesTransaction(s, email, fault) && Commits(fault)
    ensures var after := MergeSpec(s, Some(email), fault, cookieFault).state.collections;
      var owner := GetCurrentOwner(Some(email), s.cookies);
      && owner == Ok(OwnerIdentity(email, User))
      && forall j, i :: 0 <= j < |MERGEABLE_MODELS| && 0 <= i < |s.collections[MERGEABLE_MODELS[j]]|
           && s.collections[MERGEABLE_MODELS[j]][i].ownerId == s.cookies[GUEST_COOKIE]
           ==> after[MERGEABLE_MODELS[j]][i].ownerId == owner.value.ownerId
  {
    MergeTransfersOwnership(s, email, fault, cookieFault);
  }
}
