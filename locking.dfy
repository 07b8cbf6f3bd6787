/** The `asyncio.Lock` of the local ledger. `check_existing`, `register` and
    `cancel_booking` each run under `async with self._lock`; the lock is not
    reentrant, so a task that takes it again while holding it waits for a
    release that only it could make. Each operation is described by the order
    in which it takes and releases the lock. */
module Locking {
  import opened Wrappers
  import opened Calendar

  datatype LockStep = Acquire | Release

  /** Whether a task that performs `steps` on a lock that starts `held` (by
      itself) runs to the end: taking a held lock waits for ever, since no
      other task holds it. */
  function Completes(steps: seq<LockStep>, held: bool): bool
    decreases |steps|
  {
    if steps == [] then true
    else if steps[0] == Acquire then !held && Completes(steps[1..], true)
    else Completes(steps[1..], false)
  }

  /** `async with self._lock:` around a body whose own lock steps are `body`. */
  function Guarded(body: seq<LockStep>): seq<LockStep> {
    [Acquire] + body + [Release]
  }

  /** `check_existing` and `cancel_booking`: one guarded block, no nested use.
      Their lock steps are the same; the two names keep the call sites of
      `register` and the lemmas below readable as the program's operations. */
  function CheckExistingSteps(): seq<LockStep> { Guarded([]) }
  function CancelSteps(): seq<LockStep> { Guarded([]) }

  /** `register` as written: under the lock, a date that parses leads to
      `await self.check_existing(...)`, which takes the lock again; a date that
      does not parse returns before that. */
  function RegisterStepsAsWritten(date: string): seq<LockStep> {
    if ParseDate(date).None? then Guarded([]) else Guarded(CheckExistingSteps())
  }

  /** `register` as evidently intended: the duplicate check looks the booking
      up directly, inside the one guarded block. The steps no longer depend on
      the date; the parameter stays so that this and `RegisterStepsAsWritten`
      are compared on the same call. */
  function RegisterSteps(date: string): seq<LockStep> { Guarded([]) }

  /** Taking the lock while holding it never completes, whatever follows. */
  lemma NestedAcquireBlocks(before: seq<LockStep>, after: seq<LockStep>)
    requires Release !in before
    ensures !Completes([Acquire] + before + [Acquire] + after, false)
  {
    var s := [Acquire] + before + [Acquire] + after;
    assert s[1..] == before + [Acquire] + after;
    NoReleaseStaysHeld(before, [Acquire] + after);
    assert before + [Acquire] + after == before + ([Acquire] + after);
  }

  lemma NoReleaseStaysHeld(steps: seq<LockStep>, rest: seq<LockStep>)
    requires Release !in steps
    requires rest != [] && rest[0] == Acquire
    ensures !Completes(steps + rest, true)
  {
    if steps == [] {
      assert steps + rest == rest;
    } else {
      assert (steps + rest)[0] == steps[0];
    }
  }

  /** The deadlock: `register` as written never finishes for a date that
      parses, and finishes for one that does not. */
  lemma RegisterAsWrittenBlocks(date: string)
    ensures Completes(RegisterStepsAsWritten(date), false) <==> ParseDate(date).None?
  {
    if ParseDate(date).Some? {
      assert RegisterStepsAsWritten(date) == [Acquire] + [] + [Acquire] + [Release, Release];
      NestedAcquireBlocks([], [Release, Release]);
    } else {
      assert RegisterStepsAsWritten(date) == [Acquire, Release];
      OnePairCompletes();
    }
  }

  lemma OnePairCompletes()
    ensures Completes([Acquire, Release], false)
  {
    assert [Acquire, Release][1..] == [Release];
    assert [Release][1..] == [];
  }

  /** Every date `strftime` writes, such as the ones the date buttons carry,
      is one `register` blocks on as written. */
  lemma RegisterAsWrittenBlocksOnEveryOfferedDate(n: int)
    requires 1 <= n <= MaxOrdinal
    ensures !Completes(RegisterStepsAsWritten(FormatDate(n)), false)
  {
    ParseFormatDate(n);
    RegisterAsWrittenBlocks(FormatDate(n));
  }

  /** With the lookup done inline, each guarded operation completes and leaves
      the lock free for the next one, so they also complete one after another. */
  lemma IntendedStepsComplete(date: string)
    ensures Completes(RegisterSteps(date), false)
    ensures Completes(CheckExistingSteps(), false) && Completes(CancelSteps(), false)
    ensures Completes(RegisterSteps(date) + CheckExistingSteps() + CancelSteps(), false)
  {
    assert Guarded([]) == [Acquire, Release];
    OnePairCompletes();
    var s := [Acquire, Release] + [Acquire, Release] + [Acquire, Release];
    PairThenCompletes(s[2..]);
    PairThenCompletes(s);
  }

  lemma PairThenCompletes(s: seq<LockStep>)
    requires |s| >= 2 && s[0] == Acquire && s[1] == Release && Completes(s[2..], false)
    ensures Completes(s, false)
  {
    assert s[1..][1..] == s[2..];
  }
}
