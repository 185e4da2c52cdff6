/**
 * Owner spending limits under the gateway: checkPolicy (src/core/owner-policy.ts), executeIntent and _logAction
 * (src/compiler-gateway.ts), and the value encoded for wallet_execute (src/core/action-encoder.ts).
 */
module SpendingPolicy {
  import opened Decimal
  import opened Doubles
  import opened Integers
  import opened Options
  import opened SpendingLimits
  import opened Text

  const DAY := 86400
  const MIN_INT64: int := -9_223_372_036_854_775_808

  // ---- Numbers as JavaScript and SQLite read them ----

  /** `BigInt(text)`, None where it throws, and `CAST(text AS INTEGER)`, on any text. */
  datatype Numerals = Numerals(bigInt: string -> Option<int>, cast: string -> int)

  predicate IsDecimal(s: string) {
    s != "" && AllDigits(s)
  }

  /** What is known of the two readings: decimal digits are read as such, the cast saturating at 64 bits. */
  ghost predicate Standard(num: Numerals) {
    forall s :: IsDecimal(s) ==> num.bigInt(s) == Some(Read(s)) && num.cast(s) == Saturated(Read(s))
  }

  // ---- The policy check ----

  datatype Policy = Policy(perTxLimit: string, dailyLimit: string, allowedTargets: seq<string>,
                           allowedActions: seq<string>, forbiddenActions: seq<string>)

  datatype Category = WithinPolicy | ExceedsLimit | ForbiddenTarget | ForbiddenAction | NoPolicy

  /** A row of agent_actions for the wallet: `value` is the text kept in its metadata. */
  datatype LogEntry = LogEntry(value: string, timestamp: int, success: bool)

  /**
   * `params` of an intent: the target, the recipient or delegatee that stands in for it, and the value; an absent one
   * is the empty string, as falsy as the source treats it.
   */
  datatype Params = Params(target: string, alternative: string, value: string)

  function DayStart(now: int): int {
    now - now % DAY
  }

  /** The SQL total of successful values logged after a time; None when SUM overflows. */
  function SqlTotal(num: Numerals, log: seq<LogEntry>, after: int): Option<int> {
    if log == [] then Some(0)
    else match SqlTotal(num, log[..|log| - 1], after)
      case None => None
      case Some(total) =>
        var e := log[|log| - 1];
        var sum := total + if e.success && e.timestamp > after then num.cast(e.value) else 0;
        if MIN_INT64 <= sum <= MAX_INT64 then Some(sum) else None
  }

  /** `BigInt(row.total_used)`, the total having passed through a JavaScript number. */
  function UsedToday(num: Numerals, log: seq<LogEntry>, now: int): Option<int> {
    match SqlTotal(num, log, DayStart(now))
    case None => None
    case Some(total) => Some(if total >= 0 then ToNumber(total) else -(ToNumber(-total) as int))
  }

  function OrZero(value: string): string {
    if value == "" then "0" else value
  }

  predicate TargetAllowed(policy: Policy, target: string) {
    target == "" || policy.allowedTargets == []
    || exists i :: 0 <= i < |policy.allowedTargets| && Lower(policy.allowedTargets[i]) == Lower(target)
  }

  function CheckPolicy(num: Numerals, policy: Option<Policy>, log: seq<LogEntry>, action: string, params: Params, now: int)
    : Category
  {
    if policy.None? then NoPolicy
    else
      var p := policy.value;
      if action in p.forbiddenActions then ForbiddenAction
      else if p.allowedActions != [] && action !in p.allowedActions then ForbiddenAction
      else if !TargetAllowed(p, if params.target != "" then params.target else params.alternative) then ForbiddenTarget
      else
        var value, perTx, daily := num.bigInt(OrZero(params.value)), num.bigInt(p.perTxLimit), num.bigInt(p.dailyLimit);
        if value.None? || perTx.None? || value.value > perTx.value then ExceedsLimit
        else
          var used := UsedToday(num, log, now);
          if used.None? || daily.None? || used.value + value.value > daily.value then ExceedsLimit
          else WithinPolicy
  }

  /** `toWei`, the value argument wallet_execute encodes. */
  function ToWei(num: Numerals, value: string): int {
    if value == "" then 0
    else match num.bigInt(value)
      case None => 0
      case Some(n) => n
  }

  // ---- An intent through the gateway ----

  /** `^0x[a-fA-F0-9]{40}$` */
  predicate IsAddress(s: string) {
    |s| == 42 && s[..2] == "0x" && forall k :: 2 <= k < 42 ==> IsHex(s[k])
  }

  /** What is left open of compiling, encoding and executing an intent that has the form its action asks for. */
  datatype Fate = CompileError | NeedsApproval | EncodingFailed | ExecutionFailed | ExecutionSucceeded

  /**
   * An intent for one wallet: the action, and what the compiler takes it for, its check time, its fate, and the time
   * its outcome is logged.
   */
  datatype Intent = Intent(action: string, compiledAs: string, params: Params, checkedAt: int, fate: Fate, loggedAt: int)

  /** The form the compiler asks of wallet_execute: a target address and a value in decimal digits. */
  predicate Compiles(intent: Intent) {
    intent.compiledAs == "wallet_execute" ==> IsAddress(intent.params.target) && IsDecimal(intent.params.value)
  }

  function FateOf(intent: Intent): Fate {
    if Compiles(intent) then intent.fate else CompileError
  }

  function LogIntent(log: seq<LogEntry>, intent: Intent): seq<LogEntry> {
    var value := OrZero(intent.params.value);
    match FateOf(intent)
    case CompileError => log
    case NeedsApproval => log + [LogEntry(value, intent.loggedAt, false)]
    case EncodingFailed => log + [LogEntry(value, intent.loggedAt, false), LogEntry(value, intent.loggedAt, false)]
    case ExecutionFailed => log + [LogEntry(value, intent.loggedAt, false), LogEntry(value, intent.loggedAt, false)]
    case ExecutionSucceeded => log + [LogEntry(value, intent.loggedAt, false), LogEntry(value, intent.loggedAt, true)]
  }

  function StepIntent(num: Numerals, policy: Option<Policy>, log: seq<LogEntry>, intent: Intent): seq<LogEntry> {
    if CheckPolicy(num, policy, log, intent.action, intent.params, intent.checkedAt).WithinPolicy? then LogIntent(log, intent)
    else log
  }

  /** The value encoded for an admitted intent is the one that was checked, and within the per-transaction limit. */
  lemma EncodedIsChecked(num: Numerals, policy: Option<Policy>, log: seq<LogEntry>, action: string, params: Params, now: int)
    requires Standard(num) && CheckPolicy(num, policy, log, action, params, now).WithinPolicy?
    ensures num.bigInt(OrZero(params.value)) == Some(ToWei(num, params.value))
    ensures num.bigInt(policy.value.perTxLimit).Some?
            && ToWei(num, params.value) <= num.bigInt(policy.value.perTxLimit).value
  {
    assert Print(0) == "0" && IsDecimal("0");
    PrintRead(0);
  }

  class Gateway {
    const num: Numerals
    const policy: Option<Policy>
    var log: seq<LogEntry>

    constructor (num: Numerals, policy: Option<Policy>)
      ensures log == [] && this.num == num && this.policy == policy
    {
      this.num, this.policy, log := num, policy, [];
    }

    method LogAction(value: string, timestamp: int, completed: bool)
      modifies this
      ensures log == old(log) + [LogEntry(OrZero(value), timestamp, completed)]
    {
      log := log + [LogEntry(OrZero(value), timestamp, completed)];
    }

    /** `wallet_execute`'s builder: `req` throws without a target, and the value is what `toWei` reads. */
    method EncodeExecute(params: Params) returns (encoded: Option<int>)
      ensures encoded == if params.target == "" then None else Some(ToWei(num, params.value))
    {
      if params.target == "" {
        return None;
      }
      return Some(ToWei(num, params.value));
    }

    /** The check, the execution and the log, in that order; `sent` is the value sent by `execute`, when one is. */
    method ExecuteIntent(intent: Intent) returns (sent: Option<int>)
      requires Standard(num)
      modifies this
      ensures log == StepIntent(num, policy, old(log), intent)
      ensures sent.Some? ==>
                && policy.Some? && intent.params.target != ""
                && num.bigInt(OrZero(intent.params.value)) == sent
                && num.bigInt(policy.value.perTxLimit).Some?
                && sent.value <= num.bigInt(policy.value.perTxLimit).value
      ensures sent.Some? <==>
                && CheckPolicy(num, policy, old(log), intent.action, intent.params, intent.checkedAt).WithinPolicy?
                && intent.compiledAs == "wallet_execute"
                && (FateOf(intent).ExecutionFailed? || FateOf(intent).ExecutionSucceeded?)
    {
      var check := CheckPolicy(num, policy, log, intent.action, intent.params, intent.checkedAt);
      if !check.WithinPolicy? || FateOf(intent).CompileError? {
        return None;
      }
      LogAction(intent.params.value, intent.loggedAt, false);
      if intent.fate.NeedsApproval? {
        return None;
      }
      sent := None;
      if intent.compiledAs == "wallet_execute" && !intent.fate.EncodingFailed? {
        EncodedIsChecked(num, policy, old(log), intent.action, intent.params, intent.checkedAt);
        sent := EncodeExecute(intent.params);
      }
      LogAction(intent.params.value, intent.loggedAt, intent.fate.ExecutionSucceeded?);
    }
  }

  // ---- The daily limit over runs ----

  function Run(num: Numerals, policy: Option<Policy>, intents: seq<Intent>): seq<LogEntry> {
    if intents == [] then []
    else StepIntent(num, policy, Run(num, policy, intents[..|intents| - 1]), intents[|intents| - 1])
  }

  /** One intent at a time, on a clock that never goes back, with decimal values or none. */
  ghost predicate Sequential(intents: seq<Intent>) {
    && (forall i :: 0 <= i < |intents| ==>
          intents[i].checkedAt <= intents[i].loggedAt && (intents[i].params.value == "" || IsDecimal(intents[i].params.value)))
    && (forall i, j :: 0 <= i < j < |intents| ==> intents[i].loggedAt <= intents[j].checkedAt)
  }

  ghost predicate Decimals(log: seq<LogEntry>) {
    forall i :: 0 <= i < |log| ==> IsDecimal(log[i].value)
  }

  /** The successful values logged after a time, added up exactly. */
  function Spent(log: seq<LogEntry>, after: int): nat
    requires forall i :: 0 <= i < |log| ==> AllDigits(log[i].value)
  {
    if log == [] then 0
    else
      var e := log[|log| - 1];
      Spent(log[..|log| - 1], after) + if e.success && e.timestamp > after then Read(e.value) else 0
  }

  // ---- What the check sees of what was spent ----

  /** While the values add up to 64 bits, SQL adds them up exactly. */
  lemma {:induction false} SqlTotalIsExact(num: Numerals, log: seq<LogEntry>, after: int)
    requires Standard(num) && Decimals(log) && Spent(log, after) <= MAX_INT64
    ensures SqlTotal(num, log, after) == Some(Spent(log, after))
  {
    if log != [] {
      SqlTotalIsExact(num, log[..|log| - 1], after);
      assert IsDecimal(log[|log| - 1].value);
    }
  }

  /** While they add up to 2^53, JavaScript reads that total exactly. */
  lemma {:induction false} SmallTotalIsExact(num: Numerals, log: seq<LogEntry>, after: int)
    requires Standard(num) && Decimals(log) && Spent(log, after) <= MAX_EXACT
    ensures SqlTotal(num, log, after) == Some(Spent(log, after)) && ToNumber(Spent(log, after)) == Spent(log, after)
  {
    SqlTotalIsExact(num, log, after);
    SmallIsExact(Spent(log, after));
  }

  /** Every successful value is at most `cap`. */
  ghost predicate Capped(log: seq<LogEntry>, cap: nat)
    requires Decimals(log)
  {
    forall i :: 0 <= i < |log| && log[i].success ==> Read(log[i].value) <= cap
  }

  lemma {:induction false} SqlTotalShows(num: Numerals, log: seq<LogEntry>, after: int, cap: nat)
    requires Standard(num) && Decimals(log) && Capped(log, cap)
    ensures var total := SqlTotal(num, log, after); total.Some? ==> Shows(total.value, Spent(log, after), cap)
  {
    if log != [] {
      SqlTotalShows(num, log[..|log| - 1], after, cap);
      assert IsDecimal(log[|log| - 1].value);
    }
  }

  // ---- What can be spent under two limits ----

  /** A limit as the check reads it; below a text that is no number, or a negative one, nothing can be spent. */
  function LimitOf(num: Numerals, text: string): nat {
    match num.bigInt(text)
    case None => 0
    case Some(n) => if n < 0 then 0 else n
  }

  // ---- The daily limit over runs ----

  lemma {:induction false} SpentNothingAfter(log: seq<LogEntry>, after: int)
    requires Decimals(log) && forall i :: 0 <= i < |log| ==> log[i].timestamp <= after
    ensures Spent(log, after) == 0
  {
    if log != [] {
      SpentNothingAfter(log[..|log| - 1], after);
    }
  }

  lemma SpentAppend(log: seq<LogEntry>, e: LogEntry, after: int)
    requires Decimals(log) && IsDecimal(e.value)
    ensures Decimals(log + [e])
    ensures Spent(log + [e], after) == Spent(log, after) + if e.success && e.timestamp > after then Read(e.value) else 0
  {
    assert (log + [e])[..|log|] == log;
  }

  /** After the wallet's last entry, today's total stays within the bound, today being the day of any later time. */
  ghost predicate Safe(log: seq<LogEntry>, last: int, cap: nat, bound: nat) {
    && Decimals(log) && Capped(log, cap)
    && (forall i :: 0 <= i < |log| ==> log[i].timestamp <= last)
    && (forall now :: now >= last ==> Spent(log, DayStart(now)) <= bound)
  }

  lemma DayStartLater(t: int, now: int)
    requires t <= now
    ensures DayStart(t) == DayStart(now) || (DayStart(now) > t && DayStart(now) >= DayStart(t))
  {
  }

  lemma DecimalOrZero(value: string)
    requires value == "" || IsDecimal(value)
    ensures IsDecimal(OrZero(value))
  {
    PrintRead(0);
    assert Print(0) == "0";
  }

  function CapOf(num: Numerals, policy: Policy): nat {
    Min(LimitOf(num, policy.perTxLimit), LimitOf(num, policy.dailyLimit))
  }

  function BoundOf(num: Numerals, policy: Policy): nat {
    Bound(LimitOf(num, policy.perTxLimit), LimitOf(num, policy.dailyLimit))
  }

  lemma AdmittedValue(num: Numerals, policy: Policy, log: seq<LogEntry>, last: int, intent: Intent)
    requires Standard(num) && Safe(log, last, CapOf(num, policy), BoundOf(num, policy)) && last <= intent.checkedAt
    requires IsDecimal(OrZero(intent.params.value))
    requires CheckPolicy(num, Some(policy), log, intent.action, intent.params, intent.checkedAt).WithinPolicy?
    ensures Read(OrZero(intent.params.value)) <= CapOf(num, policy)
    ensures Spent(log, DayStart(intent.checkedAt)) + Read(OrZero(intent.params.value)) <= BoundOf(num, policy)
  {
    var perTx, daily := LimitOf(num, policy.perTxLimit), LimitOf(num, policy.dailyLimit);
    var after, value := DayStart(intent.checkedAt), Read(OrZero(intent.params.value));
    SqlTotalShows(num, log, after, CapOf(num, policy));
    var total := SqlTotal(num, log, after).value;
    assert value <= perTx && ToNumber(total) + value <= daily;
    AdmittedFits(perTx, daily, total, Spent(log, after), value);
  }

  lemma SpentAfterLog(log: seq<LogEntry>, intent: Intent, after: int)
    requires Decimals(log) && IsDecimal(OrZero(intent.params.value))
    ensures Decimals(LogIntent(log, intent))
    ensures Spent(LogIntent(log, intent), after)
            == Spent(log, after)
               + if FateOf(intent).ExecutionSucceeded? && intent.loggedAt > after then Read(OrZero(intent.params.value)) else 0
  {
    var value := OrZero(intent.params.value);
    var first := LogEntry(value, intent.loggedAt, false);
    var second := LogEntry(value, intent.loggedAt, FateOf(intent).ExecutionSucceeded?);
    SpentAppend(log, first, after);
    SpentAppend(log + [first], second, after);
    assert log + [first] + [second] == log + [first, second];
  }

  lemma LogStaysCapped(log: seq<LogEntry>, last: int, cap: nat, intent: Intent)
    requires Decimals(log) && Capped(log, cap) && (forall i :: 0 <= i < |log| ==> log[i].timestamp <= last)
    requires last <= intent.loggedAt
    requires IsDecimal(OrZero(intent.params.value)) && Read(OrZero(intent.params.value)) <= cap
    ensures var log' := LogIntent(log, intent);
            && Decimals(log') && Capped(log', cap)
            && forall i :: 0 <= i < |log'| ==> log'[i].timestamp <= intent.loggedAt
  {
  }

  lemma LogStaysBelow(log: seq<LogEntry>, last: int, cap: nat, bound: nat, intent: Intent, now: int)
    requires Safe(log, last, cap, bound) && last <= intent.checkedAt <= intent.loggedAt <= now
    requires IsDecimal(OrZero(intent.params.value))
    requires Spent(log, DayStart(intent.checkedAt)) + Read(OrZero(intent.params.value)) <= bound
    ensures Decimals(LogIntent(log, intent)) && Spent(LogIntent(log, intent), DayStart(now)) <= bound
  {
    SpentAfterLog(log, intent, DayStart(now));
    DayStartLater(intent.checkedAt, now);
    if DayStart(now) > intent.checkedAt {
      SpentNothingAfter(log, DayStart(now));
    }
  }

  lemma LogStaysSafe(log: seq<LogEntry>, last: int, cap: nat, bound: nat, intent: Intent)
    requires Safe(log, last, cap, bound) && last <= intent.checkedAt <= intent.loggedAt
    requires IsDecimal(OrZero(intent.params.value)) && Read(OrZero(intent.params.value)) <= cap
    requires Spent(log, DayStart(intent.checkedAt)) + Read(OrZero(intent.params.value)) <= bound
    ensures Safe(LogIntent(log, intent), intent.loggedAt, cap, bound)
  {
    LogStaysCapped(log, last, cap, intent);
    forall now | now >= intent.loggedAt
      ensures Spent(LogIntent(log, intent), DayStart(now)) <= bound
    {
      LogStaysBelow(log, last, cap, bound, intent, now);
    }
  }

  function LastTime(intents: seq<Intent>): int {
    if intents == [] then 0 else intents[|intents| - 1].loggedAt
  }

  lemma {:induction false} RunIsSafe(num: Numerals, policy: Policy, intents: seq<Intent>, last: int)
    requires Standard(num) && Sequential(intents) && (intents != [] ==> LastTime(intents) <= last)
    ensures Safe(Run(num, Some(policy), intents), last, CapOf(num, policy), BoundOf(num, policy))
  {
    if intents != [] {
      var before, intent := intents[..|intents| - 1], intents[|intents| - 1];
      RunIsSafe(num, policy, before, intent.checkedAt);
      DecimalOrZero(intent.params.value);
      var log := Run(num, Some(policy), before);
      if CheckPolicy(num, Some(policy), log, intent.action, intent.params, intent.checkedAt).WithinPolicy? {
        AdmittedValue(num, policy, log, intent.checkedAt, intent);
        LogStaysSafe(log, intent.checkedAt, CapOf(num, policy), BoundOf(num, policy), intent);
      }
    }
  }

  /**
   * In every sequential run under limits that can be kept, which is every daily limit up to 2^53, the successful
   * values logged after the start of the current day never add up to more than the daily limit.
   */
  lemma DailyLimitHolds(num: Numerals, policy: Policy, intents: seq<Intent>, now: int)
    requires Standard(num) && LimitIsKept(LimitOf(num, policy.perTxLimit), LimitOf(num, policy.dailyLimit))
    requires Sequential(intents) && (intents != [] ==> now >= LastTime(intents))
    ensures var log := Run(num, Some(policy), intents);
            Decimals(log) && Spent(log, DayStart(now)) <= LimitOf(num, policy.dailyLimit)
  {
    RunIsSafe(num, policy, intents, now);
  }

  /** Whatever the limits, no sequential run passes the daily one by more than the excess. */
  lemma ExcessIsBounded(num: Numerals, policy: Policy, intents: seq<Intent>, now: int)
    requires Standard(num) && Sequential(intents) && (intents != [] ==> now >= LastTime(intents))
    ensures var log, daily := Run(num, Some(policy), intents), LimitOf(num, policy.dailyLimit);
            Decimals(log) && Spent(log, DayStart(now)) <= daily + Excess(daily)
  {
    RunIsSafe(num, policy, intents, now);
  }
}
