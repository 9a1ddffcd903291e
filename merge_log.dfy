/**
 * The merge ledger: one entry per completed guest-to-user merge, recording the per-model
 * counts and their total. Entries are looked up by the (guest id, user id) pair and are
 * never changed once written.
 */
module MergeLog {
  import opened Common

  /** One `mergedModels` item: a model name and how many of its records moved. */
  datatype ModelCount = ModelCount(model: string, count: int)

  /** `IGuestMergeLog` without its timestamps. */
  datatype LogEntry = LogEntry(guestId: string, userId: string, mergedModels: seq<ModelCount>, totalMerged: int)

  /** The ledger, in insertion order. */
  type Ledger = seq<LogEntry>

  /** The schema's constraints: both ids required (non-empty), each item named with a count of at least 0, total at least 0. */
  predicate ValidEntry(e: LogEntry)
  {
    && e.guestId != ""
    && e.userId != ""
    && (forall i :: 0 <= i < |e.mergedModels| ==> e.mergedModels[i].model != "" && e.mergedModels[i].count >= 0)
    && e.totalMerged >= 0
  }

  /** The decimal digits of `n`, as an array index appears in a validation path. */
  function Decimal(n: nat): (s: string)
    ensures |s| >= 1
    ensures forall i :: 0 <= i < |s| ==> '0' <= s[i] <= '9'
    decreases n
  {
    var last := [('0' as int + n % 10) as char];
    if n < 10 then last else Decimal(n / 10) + last
  }

  /**
   * The failing paths of the `mergedModels` items, the first of them at index `start`:
   * `mergedModels.<i>.model` for a missing name, `mergedModels.<i>.count` for a negative count.
   */
  function ItemErrors(items: seq<ModelCount>, start: nat): (errs: seq<string>)
    ensures errs == [] <==> forall i :: 0 <= i < |items| ==> items[i].model != "" && items[i].count >= 0
    ensures |errs| <= 2 * |items|
    decreases |items|
  {
    if items == [] then []
    else
      var path := "mergedModels." + Decimal(start) + ".";
      (if items[0].model == "" then [path + "model"] else [])
      + (if items[0].count < 0 then [path + "count"] else [])
      + ItemErrors(items[1..], start + 1)
  }

  /** An item with a negative count is reported under its own index's `count` path. */
  lemma {:induction false} NegativeCountPath(items: seq<ModelCount>, start: nat, i: nat)
    requires i < |items| && items[i].count < 0
    ensures "mergedModels." + Decimal(start + i) + ".count" in ItemErrors(items, start)
    decreases i
  {
    var path := "mergedModels." + Decimal(start) + ".";
    var head := (if items[0].model == "" then [path + "model"] else [])
              + (if items[0].count < 0 then [path + "count"] else []);
    assert ItemErrors(items, start) == head + ItemErrors(items[1..], start + 1);
    if i > 0 {
      assert items[1..][i - 1] == items[i];
      NegativeCountPath(items[1..], start + 1, i - 1);
    } else {
      assert path + "count" == "mergedModels." + Decimal(start + i) + ".count";
      assert path + "count" in head;
    }
  }

  /** The paths that fail validation, in schema order. */
  function EntryErrors(e: LogEntry): (errs: seq<string>)
    ensures errs == [] <==> ValidEntry(e)
  {
    (if e.guestId == "" then ["guestId"] else [])
    + (if e.userId == "" then ["userId"] else [])
    + ItemErrors(e.mergedModels, 0)
    + (if e.totalMerged < 0 then ["totalMerged"] else [])
  }

  /** `GuestMergeLog.create(e)`: validated, then appended; an invalid entry is refused with its failing paths. */
  function Create(ledger: Ledger, e: LogEntry): (r: Result<Ledger, seq<string>>)
    ensures r.Ok? <==> ValidEntry(e)
    ensures r.Ok? ==> r.value == ledger + [e]
    ensures r.Err? ==> r.error == EntryErrors(e) && r.error != []
  {
    var errs := EntryErrors(e);
    if errs == [] then Ok(ledger + [e]) else Err(errs)
  }

  /** An entry records the merge of this guest into this user. */
  predicate IsFor(e: LogEntry, guestId: string, userId: string)
  {
    e.guestId == guestId && e.userId == userId
  }

  /** `findOne({ guestId, userId })`: the first entry for the pair in ledger order. */
  function FindEntry(ledger: Ledger, guestId: string, userId: string): (r: Option<LogEntry>)
    ensures r.Some? <==> exists i :: 0 <= i < |ledger| && IsFor(ledger[i], guestId, userId)
    ensures r.Some? ==> r.value in ledger && IsFor(r.value, guestId, userId)
    decreases |ledger|
  {
    if ledger == [] then None
    else if IsFor(ledger[0], guestId, userId) then Some(ledger[0])
    else
      var r := FindEntry(ledger[1..], guestId, userId);
      assert forall i :: 1 <= i < |ledger| ==> ledger[i] == ledger[1..][i - 1];
      r
  }

  /** How many entries the ledger holds for the pair. */
  function CountFor(ledger: Ledger, guestId: string, userId: string): (n: nat)
    ensures n <= |ledger|
    decreases |ledger|
  {
    if ledger == [] then 0
    else (if IsFor(ledger[0], guestId, userId) then 1 else 0) + CountFor(ledger[1..], guestId, userId)
  }

  /** Appending an entry adds one for its own pair and nothing for any other. */
  lemma {:induction false} CountForAppend(ledger: Ledger, e: LogEntry, guestId: string, userId: string)
    ensures CountFor(ledger + [e], guestId, userId)
         == CountFor(ledger, guestId, userId) + (if IsFor(e, guestId, userId) then 1 else 0)
    decreases |ledger|
  {
    if ledger == [] {
      assert [e][1..] == [];
    } else {
      assert (ledger + [e])[1..] == ledger[1..] + [e];
      CountForAppend(ledger[1..], e, guestId, userId);
    }
  }

  /** The lookup finds nothing exactly when the ledger holds no entry for the pair. */
  lemma {:induction false} FindEntryNoneIffNoCount(ledger: Ledger, guestId: string, userId: string)
    ensures FindEntry(ledger, guestId, userId).None? <==> CountFor(ledger, guestId, userId) == 0
    decreases |ledger|
  {
    if ledger != [] && !IsFor(ledger[0], guestId, userId) {
      FindEntryNoneIffNoCount(ledger[1..], guestId, userId);
    }
  }

  /** Appending to the ledger never changes what an earlier-present pair's lookup returns. */
  lemma {:induction false} FindEntryStable(ledger: Ledger, e: LogEntry, guestId: string, userId: string)
    requires FindEntry(ledger, guestId, userId).Some?
    ensures FindEntry(ledger + [e], guestId, userId) == FindEntry(ledger, guestId, userId)
    decreases |ledger|
  {
    assert ledger != [];
    if !IsFor(ledger[0], guestId, userId) {
      assert (ledger + [e])[1..] == ledger[1..] + [e];
      FindEntryStable(ledger[1..], e, guestId, userId);
    }
  }
}
