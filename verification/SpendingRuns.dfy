/** Runs of payments through the gateway: which limits they keep, and which they pass. */
module SpendingRuns {
  import opened Decimal
  import opened Doubles
  import opened Integers
  import opened Options
  import opened SpendingLimits
  import opened SpendingPolicy

  // ---- Payments through the gateway ----

  /** An address in lower case, which has no checksum to fail. */
  predicate IsPlainAddress(s: string) {
    IsAddress(s) && forall k :: 0 <= k < |s| ==> !('A' <= s[k] <= 'F')
  }

  /** A policy under which wallet_execute may be sent to a target. */
  predicate AllowsExecute(policy: Policy, target: string) {
    && "wallet_execute" !in policy.forbiddenActions
    && (policy.allowedActions == [] || "wallet_execute" in policy.allowedActions)
    && IsPlainAddress(target) && TargetAllowed(policy, target)
  }

  /** When an intent is checked and when its outcome is logged. */
  datatype Slot = Slot(checkedAt: int, loggedAt: int)

  function Payment(target: string, value: nat, slot: Slot): Intent {
    Intent("wallet_execute", "wallet_execute", Params(target, "", Print(value)), slot.checkedAt, ExecutionSucceeded,
           slot.loggedAt)
  }

  function Payments(target: string, values: seq<nat>, slots: seq<Slot>): (intents: seq<Intent>)
    requires |values| == |slots|
    ensures |intents| == |values|
    ensures forall k :: 0 <= k < |values| ==> intents[k] == Payment(target, values[k], slots[k])
  {
    if values == [] then []
    else
      var n := |values| - 1;
      Payments(target, values[..n], slots[..n]) + [Payment(target, values[n], slots[n])]
  }

  /** One after another, each within a day and none in its first second. */
  ghost predicate InDay(slots: seq<Slot>, day: int) {
    && day == DayStart(day)
    && (forall k :: 0 <= k < |slots| ==> day < slots[k].checkedAt <= slots[k].loggedAt < day + DAY)
    && (forall j, k :: 0 <= j < k < |slots| ==> slots[j].loggedAt <= slots[k].checkedAt)
  }

  lemma DayOf(day: int, t: int)
    requires day == DayStart(day) && day <= t < day + DAY
    ensures DayStart(t) == day
  {
  }

  function PaidLog(log: seq<LogEntry>, value: nat, at: int): seq<LogEntry> {
    log + [LogEntry(Print(value), at, false), LogEntry(Print(value), at, true)]
  }

  lemma PaySpends(log: seq<LogEntry>, value: nat, at: int, after: int)
    requires Decimals(log)
    ensures Decimals(PaidLog(log, value, at))
    ensures Spent(PaidLog(log, value, at), after) == Spent(log, after) + (if at > after then value else 0)
  {
    PrintRead(value);
    var first, second := LogEntry(Print(value), at, false), LogEntry(Print(value), at, true);
    SpentAppend(log, first, after);
    SpentAppend(log + [first], second, after);
    assert log + [first] + [second] == PaidLog(log, value, at);
  }

  lemma SqlSkips(num: Numerals, log: seq<LogEntry>, e: LogEntry, after: int, total: nat)
    requires SqlTotal(num, log, after) == Some(total) && total <= MAX_INT64 && (!e.success || e.timestamp <= after)
    ensures SqlTotal(num, log + [e], after) == Some(total)
  {
    assert (log + [e])[..|log|] == log;
  }

  lemma SqlAdds(num: Numerals, log: seq<LogEntry>, e: LogEntry, after: int, total: nat)
    requires Standard(num) && IsDecimal(e.value)
    requires SqlTotal(num, log, after) == Some(total) && e.success && e.timestamp > after
    ensures var sum := total + Saturated(Read(e.value));
            SqlTotal(num, log + [e], after) == if sum <= MAX_INT64 then Some(sum) else None
  {
    assert (log + [e])[..|log|] == log;
  }

  lemma PayCounts(num: Numerals, log: seq<LogEntry>, value: nat, at: int, after: int, total: nat)
    requires Standard(num) && SqlTotal(num, log, after) == Some(total) && total <= MAX_INT64
    ensures var sum := total + if at > after then Saturated(value) else 0;
            SqlTotal(num, PaidLog(log, value, at), after) == if sum <= MAX_INT64 then Some(sum) else None
  {
    PrintRead(value);
    var first, second := LogEntry(Print(value), at, false), LogEntry(Print(value), at, true);
    SqlSkips(num, log, first, after, total);
    if at > after {
      SqlAdds(num, log + [first], second, after, total);
    } else {
      SqlSkips(num, log + [first], second, after, total);
    }
    assert log + [first] + [second] == PaidLog(log, value, at);
  }

  lemma PaymentIsAdmitted(num: Numerals, policy: Policy, target: string, log: seq<LogEntry>, value: nat, slot: Slot, total: nat)
    requires Standard(num) && AllowsExecute(policy, target)
    requires SqlTotal(num, log, DayStart(slot.checkedAt)) == Some(total)
    requires 1 <= value <= LimitOf(num, policy.perTxLimit) && ToNumber(total) + value <= LimitOf(num, policy.dailyLimit)
    ensures StepIntent(num, Some(policy), log, Payment(target, value, slot))
            == PaidLog(log, value, slot.loggedAt)
  {
    PrintRead(value);
  }

  lemma RunLast(num: Numerals, policy: Policy, target: string, values: seq<nat>, slots: seq<Slot>)
    requires |values| == |slots| && values != []
    ensures var n := |values| - 1;
            Run(num, Some(policy), Payments(target, values, slots))
            == StepIntent(num, Some(policy), Run(num, Some(policy), Payments(target, values[..n], slots[..n])),
                          Payment(target, values[n], slots[n]))
  {
    var n := |values| - 1;
    assert Payments(target, values, slots)[..n] == Payments(target, values[..n], slots[..n]);
  }

  /** A log that shows what values paid on a day come to. */
  ghost predicate PaidUp(num: Numerals, log: seq<LogEntry>, day: int, values: seq<nat>) {
    && Decimals(log) && Spent(log, day) == Total(values)
    && (Shown(values).Some? ==> Shown(values).value <= MAX_INT64 && SqlTotal(num, log, day) == Some(Shown(values).value))
  }

  lemma LogUp(num: Numerals, log: seq<LogEntry>, values: seq<nat>, at: int, day: int)
    requires Standard(num) && values != [] && at > day
    requires PaidUp(num, log, day, values[..|values| - 1]) && Shown(values[..|values| - 1]).Some?
    ensures PaidUp(num, PaidLog(log, values[|values| - 1], at), day, values)
  {
    var before, value := values[..|values| - 1], values[|values| - 1];
    PaySpends(log, value, at, day);
    PayCounts(num, log, value, at, day, Shown(before).value);
  }

  lemma PayUp(num: Numerals, policy: Policy, target: string, log: seq<LogEntry>, values: seq<nat>, slot: Slot, day: int)
    requires Standard(num) && AllowsExecute(policy, target) && values != []
    requires day == DayStart(day) && day < slot.checkedAt <= slot.loggedAt < day + DAY
    requires Admissible(LimitOf(num, policy.perTxLimit), LimitOf(num, policy.dailyLimit), values)
    requires PaidUp(num, log, day, values[..|values| - 1])
    ensures PaidUp(num, StepIntent(num, Some(policy), log, Payment(target, values[|values| - 1], slot)), day, values)
  {
    DayOf(day, slot.checkedAt);
    PaymentIsAdmitted(num, policy, target, log, values[|values| - 1], slot, Shown(values[..|values| - 1]).value);
    LogUp(num, log, values, slot.loggedAt, day);
  }

  /** Values that are admissible one after another are all paid, in any slots of a day after its first second. */
  lemma {:induction false} PaidInFull(num: Numerals, policy: Policy, target: string, values: seq<nat>, slots: seq<Slot>,
                                      day: int)
    requires Standard(num) && AllowsExecute(policy, target) && |values| == |slots| && InDay(slots, day)
    requires Admissible(LimitOf(num, policy.perTxLimit), LimitOf(num, policy.dailyLimit), values)
    ensures PaidUp(num, Run(num, Some(policy), Payments(target, values, slots)), day, values)
    decreases |values|
  {
    if values != [] {
      var n := |values| - 1;
      PaidInFull(num, policy, target, values[..n], slots[..n], day);
      PayUp(num, policy, target, Run(num, Some(policy), Payments(target, values[..n], slots[..n])), values, slots[n], day);
      RunLast(num, policy, target, values, slots);
    }
  }

  lemma PaymentsAreSequential(target: string, values: seq<nat>, slots: seq<Slot>)
    requires |values| == |slots|
    requires forall k :: 0 <= k < |slots| ==> slots[k].checkedAt <= slots[k].loggedAt
    requires forall j, k :: 0 <= j < k < |slots| ==> slots[j].loggedAt <= slots[k].checkedAt
    ensures Sequential(Payments(target, values, slots))
  {
    forall k | 0 <= k < |values|
      ensures IsDecimal(Payments(target, values, slots)[k].params.value)
    {
      PrintRead(values[k]);
    }
  }

  // ---- Under every other pair of limits, a run passes the daily one ----

  /** After a sequential run, the successful values of the current day do not add up to more than the limit. */
  ghost predicate KeepsLimit(num: Numerals, policy: Policy, intents: seq<Intent>, now: int) {
    Sequential(intents) && (intents != [] ==> now >= LastTime(intents)) ==>
      && Decimals(Run(num, Some(policy), intents))
      && Spent(Run(num, Some(policy), intents), DayStart(now)) <= LimitOf(num, policy.dailyLimit)
  }

  /** A sequential run of payments spends an amount on a day. */
  ghost predicate Spends(num: Numerals, policy: Policy, target: string, values: seq<nat>, slots: seq<Slot>, day: int,
                         amount: nat)
    requires |slots| == |values|
  {
    var intents := Payments(target, values, slots);
    Sequential(intents) && Decimals(Run(num, Some(policy), intents)) && Spent(Run(num, Some(policy), intents), day) == amount
  }

  /** Whenever they are made in a day after its first second. */
  ghost predicate AlwaysSpends(num: Numerals, policy: Policy, target: string, values: seq<nat>, amount: nat) {
    forall slots, day :: |slots| == |values| && InDay(slots, day) ==> Spends(num, policy, target, values, slots, day, amount)
  }

  lemma AdmissibleIsSpent(num: Numerals, policy: Policy, target: string, values: seq<nat>)
    requires Standard(num) && AllowsExecute(policy, target)
    requires Admissible(LimitOf(num, policy.perTxLimit), LimitOf(num, policy.dailyLimit), values)
    ensures AlwaysSpends(num, policy, target, values, Total(values))
  {
    forall slots, day | |slots| == |values| && InDay(slots, day)
      ensures Spends(num, policy, target, values, slots, day, Total(values))
    {
      PaidInFull(num, policy, target, values, slots, day);
      PaymentsAreSequential(target, values, slots);
    }
  }

  /**
   * A daily limit above 2^53 and within 64 bits is passed by a few payments, whenever they are made, once each may
   * move twice the spacing of doubles there.
   */
  lemma FewPaymentsPassLimit(num: Numerals, policy: Policy, target: string) returns (values: seq<nat>)
    requires Standard(num) && AllowsExecute(policy, target)
    requires var daily := LimitOf(num, policy.dailyLimit);
             MAX_EXACT < daily <= MAX_INT64 && LimitOf(num, policy.perTxLimit) >= 2 * Ulp(daily)
    ensures var perTx, daily := LimitOf(num, policy.perTxLimit), LimitOf(num, policy.dailyLimit);
            && |values| <= 2 * daily / perTx + 2
            && AlwaysSpends(num, policy, target, values, daily + 1)
  {
    values := FewPass(LimitOf(num, policy.perTxLimit), LimitOf(num, policy.dailyLimit));
    AdmissibleIsSpent(num, policy, target, values);
  }

  /** With 0.05 ether per transaction and 0.1 a day, three payments do. */
  lemma ThreePaymentsPassLimit(num: Numerals, policy: Policy, target: string)
    requires Standard(num) && AllowsExecute(policy, target)
    requires LimitOf(num, policy.perTxLimit) == TWENTIETH && LimitOf(num, policy.dailyLimit) == TENTH
    ensures AlwaysSpends(num, policy, target, [TWENTIETH, TWENTIETH - 15, 16], TENTH + 1)
  {
    ThreePass();
    AdmissibleIsSpent(num, policy, target, [TWENTIETH, TWENTIETH - 15, 16]);
  }

  /** Beyond 2^63 the bound on the excess is reached: a daily limit of 100 ether lets more than 190 be spent. */
  lemma ExcessIsReached(num: Numerals, policy: Policy, target: string)
    requires Standard(num) && AllowsExecute(policy, target)
    requires var daily := LimitOf(num, policy.dailyLimit);
             daily > MAX_INT64 + 1 + Ulp(daily) / 2 && LimitOf(num, policy.perTxLimit) >= daily
    ensures var daily := LimitOf(num, policy.dailyLimit);
            AlwaysSpends(num, policy, target, [daily, daily - (MAX_INT64 + 1)], daily + Excess(daily))
  {
    var daily := LimitOf(num, policy.dailyLimit);
    SaturationPasses(LimitOf(num, policy.perTxLimit), daily, daily, daily - (MAX_INT64 + 1));
    AdmissibleIsSpent(num, policy, target, [daily, daily - (MAX_INT64 + 1)]);
  }

  function SameSecond(n: nat, at: int): (slots: seq<Slot>)
    ensures |slots| == n && forall k :: 0 <= k < n ==> slots[k] == Slot(at, at)
  {
    if n == 0 then [] else SameSecond(n - 1, at) + [Slot(at, at)]
  }

  lemma StartOfStart(now: int)
    ensures DayStart(DayStart(now)) == DayStart(now)
  {
  }

  lemma SecondInDay(n: nat, at: int)
    requires at != DayStart(at)
    ensures InDay(SameSecond(n, at), DayStart(at))
  {
    StartOfStart(at);
  }

  /** Under limits that cannot be kept, every second of a day but the first has a run that passes the daily one. */
  lemma PassedLimit(num: Numerals, policy: Policy, target: string, at: int) returns (intents: seq<Intent>)
    requires Standard(num) && AllowsExecute(policy, target) && at != DayStart(at)
    requires !LimitIsKept(LimitOf(num, policy.perTxLimit), LimitOf(num, policy.dailyLimit))
    ensures Sequential(intents) && intents != [] && forall i :: 0 <= i < |intents| ==> intents[i].loggedAt == at
    ensures Decimals(Run(num, Some(policy), intents))
    ensures Spent(Run(num, Some(policy), intents), DayStart(at)) > LimitOf(num, policy.dailyLimit)
  {
    var values := PassingValues(LimitOf(num, policy.perTxLimit), LimitOf(num, policy.dailyLimit));
    SecondInDay(|values|, at);
    PaidInFull(num, policy, target, values, SameSecond(|values|, at), DayStart(at));
    PaymentsAreSequential(target, values, SameSecond(|values|, at));
    intents := Payments(target, values, SameSecond(|values|, at));
  }

  /** For every policy that lets wallet_execute reach a target, the daily limit is kept exactly under this condition. */
  lemma LimitIsKeptExactly(num: Numerals, policy: Policy, target: string)
    requires Standard(num) && AllowsExecute(policy, target)
    ensures (forall intents, now :: KeepsLimit(num, policy, intents, now))
            <==> LimitIsKept(LimitOf(num, policy.perTxLimit), LimitOf(num, policy.dailyLimit))
  {
    if LimitIsKept(LimitOf(num, policy.perTxLimit), LimitOf(num, policy.dailyLimit)) {
      forall intents, now
        ensures KeepsLimit(num, policy, intents, now)
      {
        if Sequential(intents) && (intents != [] ==> now >= LastTime(intents)) {
          DailyLimitHolds(num, policy, intents, now);
        }
      }
    } else {
      var intents := PassedLimit(num, policy, target, 1);
      assert !KeepsLimit(num, policy, intents, 1);
    }
  }

  // ---- The first second of a day ----

  /** A log that shows nothing of what was spent at one time. */
  ghost predicate PaidUnseen(num: Numerals, log: seq<LogEntry>, at: int, amount: nat) {
    Decimals(log) && SqlTotal(num, log, at) == Some(0) && Spent(log, at - 1) == amount
  }

  lemma PayUnseen(num: Numerals, policy: Policy, target: string, log: seq<LogEntry>, value: nat, at: int, amount: nat)
    requires Standard(num) && AllowsExecute(policy, target) && at == DayStart(at) && 1 <= value <= CapOf(num, policy)
    requires PaidUnseen(num, log, at, amount)
    ensures PaidUnseen(num, StepIntent(num, Some(policy), log, Payment(target, value, Slot(at, at))), at, amount + value)
  {
    SmallIsExact(0);
    PaymentIsAdmitted(num, policy, target, log, value, Slot(at, at), 0);
    PayCounts(num, log, value, at, at, 0);
    PaySpends(log, value, at, at - 1);
  }

  /** Payments logged in the first second of a day do not count, so any number of them is admitted. */
  lemma {:induction false} MidnightIsNotCounted(num: Numerals, policy: Policy, target: string, values: seq<nat>, at: int)
    requires Standard(num) && AllowsExecute(policy, target) && at == DayStart(at)
    requires forall k :: 0 <= k < |values| ==> 1 <= values[k] <= CapOf(num, policy)
    ensures PaidUnseen(num, Run(num, Some(policy), Payments(target, values, SameSecond(|values|, at))), at, Total(values))
    decreases |values|
  {
    if values != [] {
      var n := |values| - 1;
      var log := Run(num, Some(policy), Payments(target, values[..n], SameSecond(n, at)));
      MidnightIsNotCounted(num, policy, target, values[..n], at);
      PayUnseen(num, policy, target, log, values[n], at, Total(values[..n]));
      assert SameSecond(n + 1, at)[..n] == SameSecond(n, at);
      RunLast(num, policy, target, values, SameSecond(n + 1, at));
    }
  }

  /** The successful values logged at one time. */
  function SpentAt(log: seq<LogEntry>, at: int): nat
    requires forall i :: 0 <= i < |log| ==> AllDigits(log[i].value)
  {
    if log == [] then 0
    else
      var e := log[|log| - 1];
      SpentAt(log[..|log| - 1], at) + if e.success && e.timestamp == at then Read(e.value) else 0
  }

  lemma {:induction false} SpentFrom(log: seq<LogEntry>, at: int)
    requires Decimals(log)
    ensures Spent(log, at - 1) == Spent(log, at) + SpentAt(log, at)
  {
    if log != [] {
      SpentFrom(log[..|log| - 1], at);
    }
  }

  lemma WholeDay(log: seq<LogEntry>, last: int, cap: nat, bound: nat, now: int)
    requires Safe(log, last, cap, bound) && now >= last
    ensures Spent(log, DayStart(now) - 1) <= bound + SpentAt(log, DayStart(now))
  {
    SpentFrom(log, DayStart(now));
  }

  /** Over the whole day, the limit can be passed by what was logged in its first second, besides the excess. */
  lemma WholeDayIsBounded(num: Numerals, policy: Policy, intents: seq<Intent>, now: int)
    requires Standard(num) && Sequential(intents) && (intents != [] ==> now >= LastTime(intents))
    ensures var log := Run(num, Some(policy), intents);
            Decimals(log) && Spent(log, DayStart(now) - 1) <= BoundOf(num, policy) + SpentAt(log, DayStart(now))
  {
    RunIsSafe(num, policy, intents, now);
    WholeDay(Run(num, Some(policy), intents), now, CapOf(num, policy), BoundOf(num, policy), now);
  }

  /** The same as KeepsLimit, over the whole day. */
  ghost predicate KeepsWholeDay(num: Numerals, policy: Policy, intents: seq<Intent>, now: int) {
    Sequential(intents) && (intents != [] ==> now >= LastTime(intents)) ==>
      && Decimals(Run(num, Some(policy), intents))
      && Spent(Run(num, Some(policy), intents), DayStart(now) - 1) <= LimitOf(num, policy.dailyLimit)
  }

  ghost predicate LoggedWhen(intents: seq<Intent>, open: int -> bool) {
    forall i :: 0 <= i < |intents| ==> open(intents[i].loggedAt)
  }

  ghost predicate EntriesWhen(log: seq<LogEntry>, open: int -> bool) {
    forall i :: 0 <= i < |log| ==> open(log[i].timestamp)
  }

  lemma LogTimes(log: seq<LogEntry>, intent: Intent, open: int -> bool)
    requires EntriesWhen(log, open) && open(intent.loggedAt)
    ensures EntriesWhen(LogIntent(log, intent), open)
  {
    var after := LogIntent(log, intent);
    forall i | 0 <= i < |after|
      ensures open(after[i].timestamp)
    {
      if i < |log| {
        assert after[i] == log[i];
      } else {
        assert after[i].timestamp == intent.loggedAt;
      }
    }
  }

  lemma {:induction false} RunTimes(num: Numerals, policy: Policy, intents: seq<Intent>, open: int -> bool)
    requires LoggedWhen(intents, open)
    ensures EntriesWhen(Run(num, Some(policy), intents), open)
  {
    if intents != [] {
      var before, intent := intents[..|intents| - 1], intents[|intents| - 1];
      assert open(intents[|intents| - 1].loggedAt);
      RunTimes(num, policy, before, open);
      LogTimes(Run(num, Some(policy), before), intent, open);
    }
  }

  lemma {:induction false} SpentNothingAt(log: seq<LogEntry>, at: int)
    requires Decimals(log)
    requires forall i :: 0 <= i < |log| && log[i].success && log[i].timestamp == at ==> Read(log[i].value) == 0
    ensures SpentAt(log, at) == 0
  {
    if log != [] {
      SpentNothingAt(log[..|log| - 1], at);
    }
  }

  lemma NothingAtMidnight(log: seq<LogEntry>, cap: nat, day: int, open: int -> bool)
    requires Decimals(log) && Capped(log, cap) && EntriesWhen(log, open) && (cap == 0 || !open(day))
    ensures Spent(log, day - 1) == Spent(log, day)
  {
    forall i | 0 <= i < |log| && log[i].success && log[i].timestamp == day
      ensures Read(log[i].value) == 0
    {
      assert open(log[i].timestamp);
    }
    SpentNothingAt(log, day);
    SpentFrom(log, day);
  }

  lemma QuietDay(log: seq<LogEntry>, last: int, cap: nat, bound: nat, now: int, open: int -> bool)
    requires Safe(log, last, cap, bound) && now >= last && EntriesWhen(log, open) && (cap == 0 || !open(DayStart(now)))
    ensures Spent(log, DayStart(now) - 1) <= bound
  {
    NothingAtMidnight(log, cap, DayStart(now), open);
  }

  lemma OpenDayIsKept(num: Numerals, policy: Policy, intents: seq<Intent>, now: int, open: int -> bool)
    requires Standard(num) && LimitIsKept(LimitOf(num, policy.perTxLimit), LimitOf(num, policy.dailyLimit))
    requires CapOf(num, policy) == 0 || forall t :: open(t) ==> t != DayStart(t)
    requires LoggedWhen(intents, open) && Sequential(intents) && (intents != [] ==> now >= LastTime(intents))
    ensures KeepsWholeDay(num, policy, intents, now)
  {
    RunIsSafe(num, policy, intents, now);
    RunTimes(num, policy, intents, open);
    StartOfStart(now);
    QuietDay(Run(num, Some(policy), intents), now, CapOf(num, policy), BoundOf(num, policy), now, open);
  }

  lemma NothingToSpendIsKept(perTx: nat, daily: nat)
    requires Min(perTx, daily) == 0
    ensures LimitIsKept(perTx, daily)
  {
  }

  /** More than the limit, in the fewest transactions there are. */
  function Overdraft(cap: nat, daily: nat): (values: seq<nat>)
    requires cap >= 1
    ensures forall k :: 0 <= k < |values| ==> values[k] == cap
  {
    Repeat(cap, daily / cap + 1)
  }

  lemma OverdraftPasses(cap: nat, daily: nat)
    requires cap >= 1
    ensures Total(Overdraft(cap, daily)) > daily
  {
    RepeatTotal(cap, daily / cap + 1);
    assert (daily / cap + 1) * cap == daily / cap * cap + cap;
    assert daily == daily / cap * cap + daily % cap;
  }

  lemma DayIsPassed(num: Numerals, policy: Policy, intents: seq<Intent>, at: int, day: int)
    requires Sequential(intents) && (intents != [] ==> at >= LastTime(intents)) && Decimals(Run(num, Some(policy), intents))
    requires day == DayStart(at) && Spent(Run(num, Some(policy), intents), day - 1) > LimitOf(num, policy.dailyLimit)
    ensures !KeepsWholeDay(num, policy, intents, at)
  {
  }

  lemma PassedAtMidnight(num: Numerals, policy: Policy, target: string, at: int) returns (intents: seq<Intent>)
    requires Standard(num) && AllowsExecute(policy, target) && CapOf(num, policy) >= 1 && at == DayStart(at)
    ensures !KeepsWholeDay(num, policy, intents, at)
    ensures forall i :: 0 <= i < |intents| ==> intents[i].loggedAt == at
  {
    var values := Overdraft(CapOf(num, policy), LimitOf(num, policy.dailyLimit));
    OverdraftPasses(CapOf(num, policy), LimitOf(num, policy.dailyLimit));
    MidnightIsNotCounted(num, policy, target, values, at);
    PaymentsAreSequential(target, values, SameSecond(|values|, at));
    intents := Payments(target, values, SameSecond(|values|, at));
    DayIsPassed(num, policy, intents, at, at);
  }

  lemma SpentMore(log: seq<LogEntry>, day: int, limit: nat)
    requires Decimals(log) && Spent(log, day) > limit
    ensures Spent(log, day - 1) > limit
  {
    SpentFrom(log, day);
  }

  lemma LaterDayIsPassed(num: Numerals, policy: Policy, intents: seq<Intent>, at: int, day: int)
    requires Sequential(intents) && (intents != [] ==> at >= LastTime(intents)) && Decimals(Run(num, Some(policy), intents))
    requires day == DayStart(at) && Spent(Run(num, Some(policy), intents), day) > LimitOf(num, policy.dailyLimit)
    ensures !KeepsWholeDay(num, policy, intents, at)
  {
    SpentMore(Run(num, Some(policy), intents), day, LimitOf(num, policy.dailyLimit));
    DayIsPassed(num, policy, intents, at, day);
  }

  lemma PassedLater(num: Numerals, policy: Policy, target: string, at: int) returns (intents: seq<Intent>)
    requires Standard(num) && AllowsExecute(policy, target) && at != DayStart(at)
    requires !LimitIsKept(LimitOf(num, policy.perTxLimit), LimitOf(num, policy.dailyLimit))
    ensures !KeepsWholeDay(num, policy, intents, at)
    ensures forall i :: 0 <= i < |intents| ==> intents[i].loggedAt == at
  {
    intents := PassedLimit(num, policy, target, at);
    LaterDayIsPassed(num, policy, intents, at, DayStart(at));
  }

  /**
   * For every policy that lets wallet_execute reach a target, and any times at which runs are logged: the whole day
   * keeps to the limit in every such run exactly when nothing can be spent, or the limits can be kept and no time is
   * the first second of a day, or there is no such time.
   */
  lemma MidnightExact(num: Numerals, policy: Policy, target: string, open: int -> bool)
    requires Standard(num) && AllowsExecute(policy, target)
    ensures (forall intents, now :: LoggedWhen(intents, open) ==> KeepsWholeDay(num, policy, intents, now))
            <==> CapOf(num, policy) == 0
                 || forall t :: open(t) ==>
                      LimitIsKept(LimitOf(num, policy.perTxLimit), LimitOf(num, policy.dailyLimit)) && t != DayStart(t)
  {
    var perTx, daily := LimitOf(num, policy.perTxLimit), LimitOf(num, policy.dailyLimit);
    if CapOf(num, policy) == 0 || forall t :: open(t) ==> LimitIsKept(perTx, daily) && t != DayStart(t) {
      if CapOf(num, policy) == 0 {
        NothingToSpendIsKept(perTx, daily);
      }
      forall intents: seq<Intent>, now: int | LoggedWhen(intents, open)
        ensures KeepsWholeDay(num, policy, intents, now)
      {
        if intents != [] && Sequential(intents) && now >= LastTime(intents) {
          assert open(intents[0].loggedAt);
          OpenDayIsKept(num, policy, intents, now, open);
        }
      }
    } else {
      var at :| open(at) && !(LimitIsKept(perTx, daily) && at != DayStart(at));
      var intents;
      if at == DayStart(at) {
        intents := PassedAtMidnight(num, policy, target, at);
      } else {
        intents := PassedLater(num, policy, target, at);
      }
      assert LoggedWhen(intents, open) && !KeepsWholeDay(num, policy, intents, at);
    }
  }
}
