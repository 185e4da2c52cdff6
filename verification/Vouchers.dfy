/** Payment vouchers (src/core/x402-voucher.ts): acceptance by nonce, grouping by wallet, batch settlement. */
module Vouchers {
  import opened Machines
  import opened Options
  import opened Text

  datatype Voucher = Voucher(wallet: string, payTo: string, amount: nat, nonce: string, expiry: int,
                             resource: string, sessionKey: string, signature: string)

  datatype Status = Pending | Settled(tx: string, at: int)

  /** A row of x402_vouchers; its nonce column is UNIQUE. */
  datatype Row = Row(voucher: Voucher, status: Status, createdAt: int)

  const MAX_BATCH_SIZE := 50

  predicate HasNonce(rows: seq<Row>, nonce: string) {
    exists i :: 0 <= i < |rows| && rows[i].voucher.nonce == nonce
  }

  ghost predicate UniqueNonces(rows: seq<Row>) {
    forall i, j :: 0 <= i < j < |rows| ==> rows[i].voucher.nonce != rows[j].voucher.nonce
  }

  /** `UPDATE x402_vouchers SET status = 'settled' ... WHERE nonce = ?` */
  function SettleRow(rows: seq<Row>, nonce: string, tx: string, at: int): (r: seq<Row>)
    ensures |r| == |rows|
    ensures forall i :: 0 <= i < |rows| ==>
              r[i] == if rows[i].voucher.nonce == nonce then rows[i].(status := Settled(tx, at)) else rows[i]
  {
    if rows == [] then []
    else
      var row := rows[0];
      [if row.voucher.nonce == nonce then row.(status := Settled(tx, at)) else row] + SettleRow(rows[1..], nonce, tx, at)
  }

  function SettleRows(rows: seq<Row>, nonces: seq<string>, tx: string, at: int): seq<Row> {
    if nonces == [] then rows
    else SettleRow(SettleRows(rows, nonces[..|nonces| - 1], tx, at), nonces[|nonces| - 1], tx, at)
  }

  function SettledVouchers(rows: seq<Row>): seq<Voucher> {
    if rows == [] then []
    else (if rows[0].status.Settled? then [rows[0].voucher] else []) + SettledVouchers(rows[1..])
  }

  // ---- Grouping by wallet ----

  function Key(v: Voucher): string {
    Lower(v.wallet)
  }

  /** The wallets of a batch, in order of first appearance. */
  function Keys(vs: seq<Voucher>): seq<string> {
    if vs == [] then []
    else
      var before, key := Keys(vs[..|vs| - 1]), Key(vs[|vs| - 1]);
      if key in before then before else before + [key]
  }

  /** The vouchers of one wallet, in batch order. */
  function OfWallet(vs: seq<Voucher>, key: string): seq<Voucher> {
    if vs == [] then []
    else OfWallet(vs[..|vs| - 1], key) + if Key(vs[|vs| - 1]) == key then [vs[|vs| - 1]] else []
  }

  lemma {:induction false} GroupNonEmpty(vs: seq<Voucher>, key: string)
    requires key in Keys(vs)
    ensures OfWallet(vs, key) != []
  {
    if key in Keys(vs[..|vs| - 1]) {
      GroupNonEmpty(vs[..|vs| - 1], key);
    }
  }

  function GroupsFor(vs: seq<Voucher>, keys: seq<string>): (groups: seq<seq<Voucher>>)
    ensures |groups| == |keys|
    ensures forall i :: 0 <= i < |keys| ==> groups[i] == OfWallet(vs, keys[i])
  {
    if keys == [] then [] else [OfWallet(vs, keys[0])] + GroupsFor(vs, keys[1..])
  }

  function GroupByWallet(vs: seq<Voucher>): seq<seq<Voucher>> {
    GroupsFor(vs, Keys(vs))
  }

  function Flatten(groups: seq<seq<Voucher>>): seq<Voucher> {
    if groups == [] then [] else groups[0] + Flatten(groups[1..])
  }

  lemma {:induction false} KeysDistinct(vs: seq<Voucher>)
    ensures forall i, j :: 0 <= i < j < |Keys(vs)| ==> Keys(vs)[i] != Keys(vs)[j]
    ensures forall v :: v in vs ==> Key(v) in Keys(vs)
  {
    if vs != [] {
      KeysDistinct(vs[..|vs| - 1]);
      assert forall v :: v in vs ==> v in vs[..|vs| - 1] || v == vs[|vs| - 1];
    }
  }

  lemma {:induction false} OfWalletCount(vs: seq<Voucher>, key: string, v: Voucher)
    ensures multiset(OfWallet(vs, key))[v] == if Key(v) == key then multiset(vs)[v] else 0
  {
    if vs != [] {
      var before, last := vs[..|vs| - 1], vs[|vs| - 1];
      OfWalletCount(before, key, v);
      assert vs == before + [last];
      assert multiset(vs)[v] == multiset(before)[v] + if v == last then 1 else 0;
    }
  }

  lemma {:induction false} GroupsCount(vs: seq<Voucher>, keys: seq<string>, v: Voucher)
    requires forall i, j :: 0 <= i < j < |keys| ==> keys[i] != keys[j]
    ensures multiset(Flatten(GroupsFor(vs, keys)))[v] == if Key(v) in keys then multiset(vs)[v] else 0
  {
    if keys != [] {
      var groups := GroupsFor(vs, keys);
      GroupsCount(vs, keys[1..], v);
      OfWalletCount(vs, keys[0], v);
      assert groups[1..] == GroupsFor(vs, keys[1..]);
      assert keys == [keys[0]] + keys[1..];
    }
  }

  /** No voucher is lost or repeated by grouping, so the group sizes add up to the batch. */
  lemma GroupingKeepsVouchers(vs: seq<Voucher>)
    ensures multiset(Flatten(GroupByWallet(vs))) == multiset(vs)
    ensures |Flatten(GroupByWallet(vs))| == |vs|
  {
    var flat := Flatten(GroupByWallet(vs));
    KeysDistinct(vs);
    forall v
      ensures multiset(flat)[v] == multiset(vs)[v]
    {
      GroupsCount(vs, Keys(vs), v);
      assert v in multiset(vs) ==> v in vs;
    }
    assert multiset(flat) == multiset(vs);
    assert |multiset(flat)| == |flat| && |multiset(vs)| == |vs|;
  }

  // ---- The protocol, one step per await point or table write ----

  /**
   * A call of acceptVoucher. Verifying waits for the session check, Assessing for the gateway; Recording has
   * marked the nonce and not yet inserted the row; Lost was running when its process stopped.
   */
  datatype Phase = Verifying | Assessing | Recording | Accepted | Rejected | Lost

  datatype Call = Call(process: nat, voucher: Voucher, phase: Phase)

  /** What the gateway answers; Unavailable is the caught exception, after which the voucher is accepted. */
  datatype Verdict = Approved | NeedsApproval | Blocked | Unavailable

  /** A running settlement: the groups still to submit, and the executed vouchers still to be marked. */
  datatype Settlement = Settlement(process: nat, groups: seq<seq<Voucher>>, unmarked: seq<Voucher>, tx: string)

  /** What became of a submitted batch: a success report implies execution, a failure report need not exclude it. */
  datatype Outcome = Executed(tx: string) | NotExecuted | ExecutedUnreported

  datatype State = State(
    memory: map<nat, set<string>>,     // usedNonces of every process
    nonces: set<string>,               // x402_used_nonces
    rows: seq<Row>,                    // x402_vouchers
    calls: map<nat, Call>,
    settlement: Option<Settlement>,
    ledger: seq<Voucher>,              // transfers executed on chain
    unrecorded: seq<Voucher>)          // executed transfers whose mark was lost

  datatype Event =
    | Begin(call: nat, process: nat, voucher: Voucher, now: int, signatureOk: bool)
    | SessionChecked(call: nat, limit: Option<nat>)
    | Assessed(call: nat, verdict: Verdict)
    | Record(call: nat, now: int)
    | Restart(process: nat)
    | BeginSettlement(process: nat, picks: seq<nat>, now: int)
    | Submit(outcome: Outcome)
    | MarkOne(now: int)

  function Init(): State {
    State(map[], {}, [], map[], None, [], [])
  }

  function MemoryOf(s: State, process: nat): set<string> {
    if process in s.memory then s.memory[process] else {}
  }

  function WithPhase(s: State, call: nat, phase: Phase): State
    requires call in s.calls
  {
    s.(calls := s.calls[call := s.calls[call].(phase := phase)])
  }

  function PickVouchers(rows: seq<Row>, picks: seq<nat>): (vs: seq<Voucher>)
    requires forall k :: 0 <= k < |picks| ==> picks[k] < |rows|
    ensures |vs| == |picks|
    ensures forall k :: 0 <= k < |picks| ==> vs[k] == rows[picks[k]].voucher
  {
    if picks == [] then [] else [rows[picks[0]].voucher] + PickVouchers(rows, picks[1..])
  }

  predicate Eligible(row: Row, now: int) {
    row.status.Pending? && row.voucher.expiry > now
  }

  /** The rows getPendingVouchers may return: pending, unexpired, oldest first, at most fifty, ties in any order. */
  ghost predicate IsPendingBatch(rows: seq<Row>, picks: seq<nat>, now: int) {
    && |picks| <= MAX_BATCH_SIZE
    && (forall k :: 0 <= k < |picks| ==> picks[k] < |rows| && Eligible(rows[picks[k]], now))
    && (forall k, l :: 0 <= k < l < |picks| ==>
          picks[k] != picks[l] && rows[picks[k]].createdAt <= rows[picks[l]].createdAt)
    && (forall i: nat :: i < |rows| && Eligible(rows[i], now) && i !in picks ==>
          |picks| == MAX_BATCH_SIZE && forall k :: 0 <= k < |picks| ==> rows[picks[k]].createdAt <= rows[i].createdAt)
  }

  function StepBegin(s: State, call: nat, process: nat, v: Voucher, now: int, signatureOk: bool): Option<State> {
    if call in s.calls then None
    else
      var used := v.expiry >= now && v.nonce in MemoryOf(s, process) + s.nonces;
      var memory := if used then s.memory[process := MemoryOf(s, process) + {v.nonce}] else s.memory;
      var phase := if v.expiry < now || used || !signatureOk then Rejected else Verifying;
      Some(s.(memory := memory, calls := s.calls[call := Call(process, v, phase)]))
  }

  /** `limit` is the session's daily limit, None without an authorised session; its used amount is always zero. */
  function StepSessionChecked(s: State, call: nat, limit: Option<nat>): Option<State> {
    if call !in s.calls || s.calls[call].phase != Verifying then None
    else
      var ok := limit.Some? && (limit.value == 0 || s.calls[call].voucher.amount <= limit.value);
      Some(WithPhase(s, call, if ok then Assessing else Rejected))
  }

  /** The gateway's answer, and markNonceUsed when the call goes on. */
  function StepAssessed(s: State, call: nat, verdict: Verdict): Option<State> {
    if call !in s.calls || s.calls[call].phase != Assessing then None
    else if verdict.NeedsApproval? || verdict.Blocked? then Some(WithPhase(s, call, Rejected))
    else
      var process, nonce := s.calls[call].process, s.calls[call].voucher.nonce;
      Some(WithPhase(s, call, Recording).(memory := s.memory[process := MemoryOf(s, process) + {nonce}],
                                          nonces := s.nonces + {nonce}))
  }

  /** recordVoucher; the UNIQUE nonce column makes the insert throw when the row exists. */
  function StepRecord(s: State, call: nat, now: int): Option<State> {
    if call !in s.calls || s.calls[call].phase != Recording then None
    else if HasNonce(s.rows, s.calls[call].voucher.nonce) then Some(WithPhase(s, call, Rejected))
    else Some(WithPhase(s, call, Accepted).(rows := s.rows + [Row(s.calls[call].voucher, Pending, now)]))
  }

  function Interrupted(call: Call, process: nat): Call {
    if call.process == process && !call.phase.Accepted? && !call.phase.Rejected? then call.(phase := Lost) else call
  }

  function StepRestart(s: State, process: nat): State {
    var stopped := s.settlement.Some? && s.settlement.value.process == process;
    s.(memory := s.memory[process := {}],
       calls := map c | c in s.calls :: Interrupted(s.calls[c], process),
       settlement := if stopped then None else s.settlement,
       unrecorded := if stopped then s.unrecorded + s.settlement.value.unmarked else s.unrecorded)
  }

  ghost function StepBeginSettlement(s: State, process: nat, picks: seq<nat>, now: int): Option<State> {
    if s.settlement.Some? || !IsPendingBatch(s.rows, picks, now) then None
    else Some(s.(settlement := Some(Settlement(process, GroupByWallet(PickVouchers(s.rows, picks)), [], ""))))
  }

  function StepSubmit(s: State, outcome: Outcome): Option<State> {
    if s.settlement.None? || s.settlement.value.unmarked != [] || s.settlement.value.groups == [] then None
    else
      var group := s.settlement.value.groups[0];
      var rest := s.settlement.value.(groups := s.settlement.value.groups[1..]);
      Some(match outcome
           case Executed(tx) => s.(ledger := s.ledger + group, settlement := Some(rest.(unmarked := group, tx := tx)))
           case NotExecuted => s.(settlement := Some(rest))
           case ExecutedUnreported =>
             s.(ledger := s.ledger + group, unrecorded := s.unrecorded + group, settlement := Some(rest)))
  }

  /** One UPDATE of markVouchersSettled, or the end of the settlement when nothing is left. */
  function StepMarkOne(s: State, now: int): Option<State> {
    if s.settlement.None? then None
    else
      var p := s.settlement.value;
      if p.unmarked != [] then
        Some(s.(rows := SettleRow(s.rows, p.unmarked[0].nonce, p.tx, now),
                settlement := Some(p.(unmarked := p.unmarked[1..]))))
      else if p.groups == [] then Some(s.(settlement := None))
      else None
  }

  /** The state after an event, or None where the event cannot happen. */
  ghost function Step(s: State, e: Event): Option<State> {
    match e
    case Begin(call, process, v, now, signatureOk) => StepBegin(s, call, process, v, now, signatureOk)
    case SessionChecked(call, limit) => StepSessionChecked(s, call, limit)
    case Assessed(call, verdict) => StepAssessed(s, call, verdict)
    case Record(call, now) => StepRecord(s, call, now)
    case Restart(process) => Some(StepRestart(s, process))
    case BeginSettlement(process, picks, now) => StepBeginSettlement(s, process, picks, now)
    case Submit(outcome) => StepSubmit(s, outcome)
    case MarkOne(now) => StepMarkOne(s, now)
  }

  ghost function Run(events: seq<Event>): Option<State> {
    Steps(Step, Init(), events)
  }

  // ---- What every run keeps ----

  predicate IsRow(rows: seq<Row>, v: Voucher) {
    exists i :: 0 <= i < |rows| && rows[i].voucher == v
  }

  predicate IsPendingRow(rows: seq<Row>, v: Voucher) {
    exists i :: 0 <= i < |rows| && rows[i].voucher == v && rows[i].status.Pending?
  }

  ghost predicate NoncesCovered(s: State) {
    && (forall p :: p in s.memory ==> s.memory[p] <= s.nonces)
    && (forall i :: 0 <= i < |s.rows| ==> s.rows[i].voucher.nonce in s.nonces)
    && (forall c :: c in s.calls && s.calls[c].phase.Recording? ==> s.calls[c].voucher.nonce in s.nonces)
  }

  ghost predicate AcceptedOnce(s: State) {
    && (forall c :: c in s.calls && s.calls[c].phase.Accepted? ==> IsRow(s.rows, s.calls[c].voucher))
    && (forall c, d :: c in s.calls && d in s.calls && c != d && s.calls[c].phase.Accepted? && s.calls[d].phase.Accepted?
          ==> s.calls[c].voucher.nonce != s.calls[d].voucher.nonce)
  }

  function Queue(s: State): seq<Voucher> {
    if s.settlement.None? then [] else s.settlement.value.unmarked + Flatten(s.settlement.value.groups)
  }

  function Unmarked(s: State): seq<Voucher> {
    if s.settlement.None? then [] else s.settlement.value.unmarked
  }

  /** The vouchers a settlement holds are pending rows, each held once. */
  ghost predicate QueueIsPending(rows: seq<Row>, queue: multiset<Voucher>) {
    forall v :: v in queue ==> queue[v] == 1 && IsPendingRow(rows, v)
  }

  /** Every transfer is accounted for: one per settled row, one per voucher being marked, one per lost record. */
  ghost predicate LedgerBalances(s: State) {
    multiset(s.ledger) == multiset(SettledVouchers(s.rows)) + multiset(Unmarked(s)) + multiset(s.unrecorded)
  }

  ghost predicate AcceptInv(s: State) {
    UniqueNonces(s.rows) && NoncesCovered(s) && AcceptedOnce(s)
  }

  ghost predicate LedgerInv(s: State) {
    QueueIsPending(s.rows, multiset(Queue(s))) && LedgerBalances(s)
  }

  ghost predicate Inv(s: State) {
    AcceptInv(s) && LedgerInv(s)
  }

  lemma {:induction false} SettledAppend(rows: seq<Row>, row: Row)
    ensures SettledVouchers(rows + [row]) == SettledVouchers(rows) + if row.status.Settled? then [row.voucher] else []
  {
    if rows == [] {
      assert rows + [row] == [row];
    } else {
      SettledAppend(rows[1..], row);
      assert (rows + [row])[1..] == rows[1..] + [row];
    }
  }

  lemma SettleRowAbsent(rows: seq<Row>, nonce: string, tx: string, at: int)
    requires forall i :: 0 <= i < |rows| ==> rows[i].voucher.nonce != nonce
    ensures SettleRow(rows, nonce, tx, at) == rows
  {
  }

  /** Settling a pending row by its nonce adds exactly that voucher to the settled ones. */
  lemma {:induction false} SettleRowMoves(rows: seq<Row>, i: nat, tx: string, at: int)
    requires i < |rows| && UniqueNonces(rows) && rows[i].status.Pending?
    ensures multiset(SettledVouchers(SettleRow(rows, rows[i].voucher.nonce, tx, at)))
            == multiset(SettledVouchers(rows)) + multiset{rows[i].voucher}
  {
    var nonce := rows[i].voucher.nonce;
    var r := SettleRow(rows, nonce, tx, at);
    assert r[1..] == SettleRow(rows[1..], nonce, tx, at);
    if i == 0 {
      SettleRowAbsent(rows[1..], nonce, tx, at);
    } else {
      assert rows[1..][i - 1] == rows[i] && r[0] == rows[0];
      SettleRowMoves(rows[1..], i - 1, tx, at);
    }
  }

  // ---- Each step keeps the invariant ----

  lemma SettleRowKeepsOthers(rows: seq<Row>, nonce: string, tx: string, at: int, v: Voucher)
    requires v.nonce != nonce && IsPendingRow(rows, v)
    ensures IsPendingRow(SettleRow(rows, nonce, tx, at), v)
  {
    var r := SettleRow(rows, nonce, tx, at);
    var i :| 0 <= i < |rows| && rows[i].voucher == v && rows[i].status.Pending?;
    assert r[i] == rows[i];
  }

  lemma SettleRowKeepsVouchers(rows: seq<Row>, nonce: string, tx: string, at: int)
    ensures forall v :: IsRow(rows, v) ==> IsRow(SettleRow(rows, nonce, tx, at), v)
    ensures forall i :: 0 <= i < |rows| ==> SettleRow(rows, nonce, tx, at)[i].voucher == rows[i].voucher
  {
    var r := SettleRow(rows, nonce, tx, at);
    forall v | IsRow(rows, v)
      ensures IsRow(r, v)
    {
      var i :| 0 <= i < |rows| && rows[i].voucher == v;
      assert r[i].voucher == v;
    }
  }

  lemma BeginKeepsInv(s: State, call: nat, process: nat, v: Voucher, now: int, signatureOk: bool)
    requires Inv(s) && StepBegin(s, call, process, v, now, signatureOk).Some?
    ensures Inv(StepBegin(s, call, process, v, now, signatureOk).value)
  {
  }

  lemma SessionCheckedKeepsInv(s: State, call: nat, limit: Option<nat>)
    requires Inv(s) && StepSessionChecked(s, call, limit).Some?
    ensures Inv(StepSessionChecked(s, call, limit).value)
  {
  }

  lemma AssessedKeepsAcceptance(s: State, call: nat, verdict: Verdict)
    requires AcceptInv(s) && StepAssessed(s, call, verdict).Some?
    ensures AcceptInv(StepAssessed(s, call, verdict).value)
  {
    var s' := StepAssessed(s, call, verdict).value;
    assert NoncesCovered(s');
    assert AcceptedOnce(s');
  }

  lemma AssessedKeepsInv(s: State, call: nat, verdict: Verdict)
    requires Inv(s) && StepAssessed(s, call, verdict).Some?
    ensures Inv(StepAssessed(s, call, verdict).value)
  {
    AssessedKeepsAcceptance(s, call, verdict);
  }

  lemma AppendRowKeepsRows(rows: seq<Row>, row: Row, w: Voucher)
    ensures IsRow(rows, w) ==> IsRow(rows + [row], w)
    ensures IsPendingRow(rows, w) ==> IsPendingRow(rows + [row], w)
    ensures IsRow(rows + [row], row.voucher)
  {
    assert (rows + [row])[|rows|] == row;
    if IsPendingRow(rows, w) {
      var i :| 0 <= i < |rows| && rows[i].voucher == w && rows[i].status.Pending?;
      assert (rows + [row])[i] == rows[i];
    }
    if IsRow(rows, w) {
      var i :| 0 <= i < |rows| && rows[i].voucher == w;
      assert (rows + [row])[i] == rows[i];
    }
  }

  lemma RecordKeepsAcceptance(s: State, call: nat, now: int)
    requires AcceptInv(s) && StepRecord(s, call, now).Some?
    ensures AcceptInv(StepRecord(s, call, now).value)
  {
    var s' := StepRecord(s, call, now).value;
    var v := s.calls[call].voucher;
    if !HasNonce(s.rows, v.nonce) {
      forall w
        ensures IsRow(s.rows, w) ==> IsRow(s'.rows, w)
      {
        AppendRowKeepsRows(s.rows, Row(v, Pending, now), w);
      }
      AppendRowKeepsRows(s.rows, Row(v, Pending, now), v);
      assert AcceptedOnce(s');
    }
  }

  lemma AppendKeepsQueue(rows: seq<Row>, row: Row, queue: multiset<Voucher>)
    requires QueueIsPending(rows, queue)
    ensures QueueIsPending(rows + [row], queue)
  {
    forall w | w in queue
      ensures IsPendingRow(rows + [row], w)
    {
      AppendRowKeepsRows(rows, row, w);
    }
  }

  lemma RecordKeepsLedger(s: State, call: nat, now: int)
    requires LedgerInv(s) && StepRecord(s, call, now).Some?
    ensures LedgerInv(StepRecord(s, call, now).value)
  {
    var row := Row(s.calls[call].voucher, Pending, now);
    SettledAppend(s.rows, row);
    AppendKeepsQueue(s.rows, row, multiset(Queue(s)));
  }

  lemma RecordKeepsInv(s: State, call: nat, now: int)
    requires Inv(s) && StepRecord(s, call, now).Some?
    ensures Inv(StepRecord(s, call, now).value)
  {
    RecordKeepsAcceptance(s, call, now);
    RecordKeepsLedger(s, call, now);
  }

  lemma RestartKeepsAcceptance(s: State, process: nat)
    requires AcceptInv(s)
    ensures AcceptInv(StepRestart(s, process))
  {
    var s' := StepRestart(s, process);
    assert AcceptedOnce(s') && NoncesCovered(s');
  }

  lemma RestartKeepsInv(s: State, process: nat)
    requires Inv(s)
    ensures Inv(StepRestart(s, process))
  {
    RestartKeepsAcceptance(s, process);
    var s' := StepRestart(s, process);
    if s'.settlement != s.settlement {
      assert multiset(s'.unrecorded) == multiset(s.unrecorded) + multiset(Unmarked(s));
      assert Queue(s') == [];
    }
  }

  lemma NoRepeats<T>(s: seq<T>, k: nat)
    requires k < |s| && forall l :: 0 <= l < |s| && l != k ==> s[l] != s[k]
    ensures multiset(s)[s[k]] == 1
  {
    assert s == s[..k] + [s[k]] + s[k + 1..];
    assert s[k] !in s[..k] && s[k] !in s[k + 1..];
  }

  lemma BatchIsPending(rows: seq<Row>, picks: seq<nat>, now: int)
    requires UniqueNonces(rows) && IsPendingBatch(rows, picks, now)
    ensures QueueIsPending(rows, multiset(PickVouchers(rows, picks)))
  {
    var batch := PickVouchers(rows, picks);
    forall v | v in multiset(batch)
      ensures multiset(batch)[v] == 1 && IsPendingRow(rows, v)
    {
      var k :| 0 <= k < |batch| && batch[k] == v;
      assert rows[picks[k]].voucher == v;
      forall l | 0 <= l < |batch| && l != k
        ensures batch[l] != batch[k]
      {
        assert picks[k] != picks[l];
        assert rows[picks[k]].voucher.nonce != rows[picks[l]].voucher.nonce;
      }
      NoRepeats(batch, k);
    }
  }

  lemma BeginSettlementKeepsInv(s: State, process: nat, picks: seq<nat>, now: int)
    requires Inv(s) && StepBeginSettlement(s, process, picks, now).Some?
    ensures Inv(StepBeginSettlement(s, process, picks, now).value)
  {
    var s' := StepBeginSettlement(s, process, picks, now).value;
    var batch := PickVouchers(s.rows, picks);
    BatchIsPending(s.rows, picks, now);
    GroupingKeepsVouchers(batch);
    assert Queue(s') == Flatten(GroupByWallet(batch));
  }

  lemma PartIsPending(rows: seq<Row>, queue: multiset<Voucher>, part: multiset<Voucher>)
    requires QueueIsPending(rows, queue) && part <= queue
    ensures QueueIsPending(rows, part)
  {
    forall v | v in part
      ensures part[v] == 1 && IsPendingRow(rows, v)
    {
      assert part[v] <= queue[v];
    }
  }

  lemma SubmitKeepsQueue(s: State, outcome: Outcome)
    requires LedgerInv(s) && StepSubmit(s, outcome).Some?
    ensures QueueIsPending(s.rows, multiset(Queue(StepSubmit(s, outcome).value)))
  {
    var groups := s.settlement.value.groups;
    var queue' := Queue(StepSubmit(s, outcome).value);
    assert Queue(s) == groups[0] + Flatten(groups[1..]);
    assert queue' == Queue(s) || queue' == Flatten(groups[1..]);
    PartIsPending(s.rows, multiset(Queue(s)), multiset(queue'));
  }

  lemma SubmitKeepsBalance(s: State, outcome: Outcome)
    requires LedgerBalances(s) && StepSubmit(s, outcome).Some?
    ensures LedgerBalances(StepSubmit(s, outcome).value)
  {
    var group := s.settlement.value.groups[0];
    assert multiset(s.ledger + group) == multiset(s.ledger) + multiset(group);
    assert multiset(s.unrecorded + group) == multiset(s.unrecorded) + multiset(group);
  }

  lemma SubmitKeepsInv(s: State, outcome: Outcome)
    requires Inv(s) && StepSubmit(s, outcome).Some?
    ensures Inv(StepSubmit(s, outcome).value)
  {
    SubmitKeepsQueue(s, outcome);
    SubmitKeepsBalance(s, outcome);
  }

  lemma MarkKeepsQueue(rows: seq<Row>, v: Voucher, queue: seq<Voucher>, tx: string, now: int)
    requires UniqueNonces(rows) && QueueIsPending(rows, multiset([v] + queue))
    ensures QueueIsPending(SettleRow(rows, v.nonce, tx, now), multiset(queue))
    ensures IsPendingRow(rows, v)
  {
    var all := multiset([v] + queue);
    assert all == multiset{v} + multiset(queue);
    assert v in all;
    var i :| 0 <= i < |rows| && rows[i].voucher == v && rows[i].status.Pending?;
    forall w | w in multiset(queue)
      ensures multiset(queue)[w] == 1 && IsPendingRow(SettleRow(rows, v.nonce, tx, now), w)
    {
      assert w in all && all[w] == 1;
      assert w != v;
      var j :| 0 <= j < |rows| && rows[j].voucher == w && rows[j].status.Pending?;
      assert j != i;
      SettleRowKeepsOthers(rows, v.nonce, tx, now, w);
    }
  }

  lemma MarkOneKeepsAcceptance(s: State, now: int)
    requires AcceptInv(s) && StepMarkOne(s, now).Some?
    ensures AcceptInv(StepMarkOne(s, now).value)
  {
    var p := s.settlement.value;
    if p.unmarked != [] {
      SettleRowKeepsVouchers(s.rows, p.unmarked[0].nonce, p.tx, now);
    }
  }

  lemma MarkBalances(rows: seq<Row>, v: Voucher, tx: string, now: int)
    requires UniqueNonces(rows) && IsPendingRow(rows, v)
    ensures multiset(SettledVouchers(SettleRow(rows, v.nonce, tx, now))) == multiset(SettledVouchers(rows)) + multiset{v}
  {
    var i :| 0 <= i < |rows| && rows[i].voucher == v && rows[i].status.Pending?;
    SettleRowMoves(rows, i, tx, now);
  }

  lemma MarkOneKeepsQueue(s: State, now: int)
    requires UniqueNonces(s.rows) && LedgerInv(s) && StepMarkOne(s, now).Some? && Unmarked(s) != []
    ensures var s' := StepMarkOne(s, now).value; QueueIsPending(s'.rows, multiset(Queue(s')))
    ensures IsPendingRow(s.rows, Unmarked(s)[0])
  {
    var v, queue' := Unmarked(s)[0], Queue(StepMarkOne(s, now).value);
    assert Queue(s) == [v] + queue';
    MarkKeepsQueue(s.rows, v, queue', s.settlement.value.tx, now);
  }

  lemma MarkOneTakesFirst(s: State, now: int)
    requires StepMarkOne(s, now).Some? && Unmarked(s) != []
    ensures multiset(Unmarked(s)) == multiset{Unmarked(s)[0]} + multiset(Unmarked(StepMarkOne(s, now).value))
  {
    assert Unmarked(s) == [Unmarked(s)[0]] + Unmarked(StepMarkOne(s, now).value);
  }

  lemma MarkOneKeepsBalance(s: State, now: int)
    requires UniqueNonces(s.rows) && LedgerBalances(s) && StepMarkOne(s, now).Some? && Unmarked(s) != []
    requires IsPendingRow(s.rows, Unmarked(s)[0])
    ensures LedgerBalances(StepMarkOne(s, now).value)
  {
    MarkBalances(s.rows, Unmarked(s)[0], s.settlement.value.tx, now);
    MarkOneTakesFirst(s, now);
  }

  lemma MarkOneKeepsInv(s: State, now: int)
    requires Inv(s) && StepMarkOne(s, now).Some?
    ensures Inv(StepMarkOne(s, now).value)
  {
    MarkOneKeepsAcceptance(s, now);
    if Unmarked(s) != [] {
      MarkOneKeepsQueue(s, now);
      MarkOneKeepsBalance(s, now);
    }
  }

  lemma StepKeepsInv(s: State, e: Event)
    requires Inv(s) && Step(s, e).Some?
    ensures Inv(Step(s, e).value)
  {
    match e
    case Begin(call, process, v, now, signatureOk) => BeginKeepsInv(s, call, process, v, now, signatureOk);
    case SessionChecked(call, limit) => SessionCheckedKeepsInv(s, call, limit);
    case Assessed(call, verdict) => AssessedKeepsInv(s, call, verdict);
    case Record(call, now) => RecordKeepsInv(s, call, now);
    case Restart(process) => RestartKeepsInv(s, process);
    case BeginSettlement(process, picks, now) => BeginSettlementKeepsInv(s, process, picks, now);
    case Submit(outcome) => SubmitKeepsInv(s, outcome);
    case MarkOne(now) => MarkOneKeepsInv(s, now);
  }

  lemma RunKeepsInv(events: seq<Event>)
    requires Run(events).Some?
    ensures Inv(Run(events).value)
  {
    assert Flatten([]) == [];
    forall s, e | Inv(s) && Step(s, e).Some?
      ensures Inv(Step(s, e).value)
    {
      StepKeepsInv(s, e);
    }
    StepsKeep(Step, Inv, Init(), events);
  }

  // ---- What the invariant says about every run ----

  /** However calls interleave and processes restart, at most one call per nonce is accepted. */
  lemma AtMostOneAcceptance(events: seq<Event>, c: nat, d: nat)
    requires Run(events).Some?
    requires var s := Run(events).value;
             c in s.calls && d in s.calls && s.calls[c].phase.Accepted? && s.calls[d].phase.Accepted?
    requires var s := Run(events).value; s.calls[c].voucher.nonce == s.calls[d].voucher.nonce
    ensures c == d
  {
    RunKeepsInv(events);
  }

  /** Every process's memory is within the nonce table, and so is the nonce of every recorded voucher. */
  lemma NoncesArePersisted(events: seq<Event>)
    requires Run(events).Some?
    ensures var s := Run(events).value;
            && (forall p :: p in s.memory ==> s.memory[p] <= s.nonces)
            && (forall i :: 0 <= i < |s.rows| ==> s.rows[i].voucher.nonce in s.nonces)
  {
    RunKeepsInv(events);
  }

  /** The calls that come after `before` with a nonce of the table are all rejected. */
  ghost predicate LaterRejected(s: State, before: set<nat>, nonce: string) {
    && nonce in s.nonces
    && forall c :: c in s.calls && c !in before && s.calls[c].voucher.nonce == nonce ==> s.calls[c].phase.Rejected?
  }

  lemma StepKeepsRejected(s: State, e: Event, before: set<nat>, nonce: string)
    requires LaterRejected(s, before, nonce) && Step(s, e).Some?
    ensures LaterRejected(Step(s, e).value, before, nonce)
  {
  }

  lemma {:induction false} StepsKeepRejected(s: State, events: seq<Event>, before: set<nat>, nonce: string)
    requires LaterRejected(s, before, nonce) && Steps(Step, s, events).Some?
    ensures LaterRejected(Steps(Step, s, events).value, before, nonce)
    decreases |events|
  {
    if events != [] {
      StepKeepsRejected(s, events[0], before, nonce);
      StepsKeepRejected(Step(s, events[0]).value, events[1..], before, nonce);
    }
  }

  /** Once a nonce is in the table, every call begun with it later is rejected, in any process, across any restart. */
  lemma UsedNonceIsRefused(s: State, events: seq<Event>, call: nat)
    requires Steps(Step, s, events).Some?
    requires var s' := Steps(Step, s, events).value;
             call in s'.calls && call !in s.calls && s'.calls[call].voucher.nonce in s.nonces
    ensures Steps(Step, s, events).value.calls[call].phase.Rejected?
  {
    StepsKeepRejected(s, events, s.calls.Keys, Steps(Step, s, events).value.calls[call].voucher.nonce);
  }

  /** What a session's check refuses: no authorised session, or an amount above its limit, zero being no limit. */
  predicate Exceeds(limit: Option<nat>, amount: nat) {
    limit.None? || 0 < limit.value < amount
  }

  lemma {:induction false} RejectedStays(s: State, events: seq<Event>, call: nat)
    requires call in s.calls && s.calls[call].phase.Rejected? && Steps(Step, s, events).Some?
    ensures var s' := Steps(Step, s, events).value; call in s'.calls && s'.calls[call] == s.calls[call]
    decreases |events|
  {
    if events != [] {
      RejectedStays(Step(s, events[0]).value, events[1..], call);
    }
  }

  lemma {:induction false} VoucherStays(s: State, events: seq<Event>, call: nat)
    requires call in s.calls && Steps(Step, s, events).Some?
    ensures var s' := Steps(Step, s, events).value; call in s'.calls && s'.calls[call].voucher == s.calls[call].voucher
    decreases |events|
  {
    if events != [] {
      VoucherStays(Step(s, events[0]).value, events[1..], call);
    }
  }

  /** A call whose session check is answered with a limit below its amount, or with none, ends rejected in every run. */
  lemma ExceedingCallIsRejected(events: seq<Event>, call: nat, limit: Option<nat>, rest: seq<Event>)
    requires Run(events + ([SessionChecked(call, limit)] + rest)).Some?
    requires var s := Run(events + ([SessionChecked(call, limit)] + rest)).value;
             call in s.calls ==> Exceeds(limit, s.calls[call].voucher.amount)
    ensures var s := Run(events + ([SessionChecked(call, limit)] + rest)).value;
            call in s.calls && s.calls[call].phase.Rejected?
  {
    StepsAppend(Step, Init(), events, [SessionChecked(call, limit)] + rest);
    var s := Run(events).value;
    StepsFirst(Step, s, SessionChecked(call, limit), rest);
    var s1 := Step(s, SessionChecked(call, limit)).value;
    VoucherStays(s1, rest, call);
    RejectedStays(s1, rest, call);
  }

  function Total(vs: seq<Voucher>, chosen: Voucher -> bool): nat {
    if vs == [] then 0 else (if chosen(vs[0]) then vs[0].amount else 0) + Total(vs[1..], chosen)
  }

  function All(): Voucher -> bool {
    v => true
  }

  lemma {:induction false} TotalAppend(a: seq<Voucher>, b: seq<Voucher>, chosen: Voucher -> bool)
    ensures Total(a + b, chosen) == Total(a, chosen) + Total(b, chosen)
  {
    if a == [] {
      assert a + b == b;
    } else {
      TotalAppend(a[1..], b, chosen);
      assert (a + b)[1..] == a[1..] + b;
    }
  }

  lemma WithoutElement<T>(s: seq<T>, k: nat)
    requires k < |s|
    ensures multiset(s) == multiset{s[k]} + multiset(s[..k] + s[k + 1..])
  {
    assert s == s[..k] + [s[k]] + s[k + 1..];
  }

  lemma CancelElement<T>(x: multiset<T>, y: multiset<T>, z: multiset<T>)
    requires x + y == x + z
    ensures y == z
  {
    forall e
      ensures y[e] == z[e]
    {
      assert (x + y)[e] == (x + z)[e];
    }
  }

  lemma TotalWithout(b: seq<Voucher>, k: nat, chosen: Voucher -> bool)
    requires k < |b|
    ensures Total(b, chosen) == (if chosen(b[k]) then b[k].amount else 0) + Total(b[..k] + b[k + 1..], chosen)
  {
    assert b == b[..k] + b[k..] && b[k..][1..] == b[k + 1..];
    TotalAppend(b[..k], b[k..], chosen);
    TotalAppend(b[..k], b[k + 1..], chosen);
  }

  lemma {:induction false} TotalOfMultiset(a: seq<Voucher>, b: seq<Voucher>, chosen: Voucher -> bool)
    requires multiset(a) == multiset(b)
    ensures Total(a, chosen) == Total(b, chosen)
  {
    if a == [] {
      assert |multiset(b)| == 0;
    } else {
      assert a[0] in multiset(b);
      var k :| 0 <= k < |b| && b[k] == a[0];
      WithoutElement(a, 0);
      WithoutElement(b, k);
      assert a[..0] + a[1..] == a[1..];
      CancelElement(multiset{a[0]}, multiset(a[1..]), multiset(b[..k] + b[k + 1..]));
      TotalOfMultiset(a[1..], b[..k] + b[k + 1..], chosen);
      TotalWithout(b, k, chosen);
    }
  }

  /**
   * Conservation: for any choice of vouchers (a payee's, a wallet's), the amount moved on chain is that of
   * the settled rows, plus that of the vouchers being marked, plus one more transfer for every record lost.
   */
  lemma AmountsMoved(events: seq<Event>, chosen: Voucher -> bool)
    requires Run(events).Some?
    ensures var s := Run(events).value;
            Total(s.ledger, chosen)
            == Total(SettledVouchers(s.rows), chosen) + Total(Unmarked(s), chosen) + Total(s.unrecorded, chosen)
  {
    RunKeepsInv(events);
    var s := Run(events).value;
    var settled := SettledVouchers(s.rows);
    TotalOfMultiset(s.ledger, settled + Unmarked(s) + s.unrecorded, chosen);
    TotalAppend(settled + Unmarked(s), s.unrecorded, chosen);
    TotalAppend(settled, Unmarked(s), chosen);
  }

  lemma {:induction false} SettledAbsent(rows: seq<Row>, v: Voucher)
    requires forall i :: 0 <= i < |rows| ==> rows[i].voucher.nonce != v.nonce
    ensures multiset(SettledVouchers(rows))[v] == 0
  {
    if rows != [] {
      SettledAbsent(rows[1..], v);
    }
  }

  lemma {:induction false} SettledCount(rows: seq<Row>, i: nat)
    requires i < |rows| && UniqueNonces(rows)
    ensures multiset(SettledVouchers(rows))[rows[i].voucher] == if rows[i].status.Settled? then 1 else 0
  {
    if i == 0 {
      SettledAbsent(rows[1..], rows[0].voucher);
    } else {
      assert rows[1..][i - 1] == rows[i];
      SettledCount(rows[1..], i - 1);
    }
  }

  ghost predicate ExactlyOnce(s: State) {
    forall i :: 0 <= i < |s.rows| ==>
      multiset(s.ledger)[s.rows[i].voucher] == if s.rows[i].status.Settled? then 1 else 0
  }

  ghost predicate UnrecordedInv(s: State) {
    forall v :: v in s.unrecorded ==> IsRow(s.rows, v)
  }

  lemma StepKeepsRows(s: State, e: Event, v: Voucher)
    requires IsRow(s.rows, v) && Step(s, e).Some?
    ensures IsRow(Step(s, e).value.rows, v)
  {
    if e.Record? {
      AppendRowKeepsRows(s.rows, Row(s.calls[e.call].voucher, Pending, e.now), v);
    } else if e.MarkOne? && Unmarked(s) != [] {
      SettleRowKeepsVouchers(s.rows, Unmarked(s)[0].nonce, s.settlement.value.tx, e.now);
    }
  }

  lemma UnrecordedComeFromQueue(s: State, e: Event, v: Voucher)
    requires Step(s, e).Some? && v in Step(s, e).value.unrecorded
    ensures v in s.unrecorded || v in Queue(s)
  {
  }

  lemma QueuedIsRow(s: State, v: Voucher)
    requires LedgerInv(s)
    ensures v in Queue(s) ==> IsRow(s.rows, v)
  {
    if v in Queue(s) {
      assert v in multiset(Queue(s));
      assert IsPendingRow(s.rows, v);
    }
  }

  lemma UnrecordedStep(s: State, e: Event)
    requires LedgerInv(s) && UnrecordedInv(s) && Step(s, e).Some?
    ensures UnrecordedInv(Step(s, e).value)
  {
    forall v | v in Step(s, e).value.unrecorded
      ensures IsRow(Step(s, e).value.rows, v)
    {
      UnrecordedComeFromQueue(s, e, v);
      QueuedIsRow(s, v);
      StepKeepsRows(s, e, v);
    }
  }

  lemma {:induction false} UnrecordedAreRows(s: State, events: seq<Event>)
    requires Inv(s) && UnrecordedInv(s) && Steps(Step, s, events).Some?
    ensures UnrecordedInv(Steps(Step, s, events).value)
    decreases |events|
  {
    if events != [] {
      StepKeepsInv(s, events[0]);
      UnrecordedStep(s, events[0]);
      UnrecordedAreRows(Step(s, events[0]).value, events[1..]);
    }
  }

  ghost predicate GroupsHold(s: State) {
    s.settlement.Some? ==> forall g :: 0 <= g < |s.settlement.value.groups| ==> s.settlement.value.groups[g] != []
  }

  lemma GroupsHoldVouchers(vs: seq<Voucher>)
    ensures forall g :: 0 <= g < |GroupByWallet(vs)| ==> GroupByWallet(vs)[g] != []
  {
    forall g | 0 <= g < |Keys(vs)|
      ensures OfWallet(vs, Keys(vs)[g]) != []
    {
      GroupNonEmpty(vs, Keys(vs)[g]);
    }
  }

  lemma StepKeepsGroups(s: State, e: Event)
    requires GroupsHold(s) && Step(s, e).Some?
    ensures GroupsHold(Step(s, e).value)
  {
    if e.BeginSettlement? {
      GroupsHoldVouchers(PickVouchers(s.rows, e.picks));
    }
  }

  /** A batch executed and reported as failed, or its process restarted before all of it was marked. */
  predicate LosesRecord(s: State, e: Event) {
    match e
    case Submit(outcome) => outcome.ExecutedUnreported?
    case Restart(process) =>
      s.settlement.Some? && s.settlement.value.process == process && s.settlement.value.unmarked != []
    case _ => false
  }

  lemma StepLosesRecord(s: State, e: Event)
    requires GroupsHold(s) && Step(s, e).Some?
    ensures Step(s, e).value.unrecorded == [] <==> s.unrecorded == [] && !LosesRecord(s, e)
  {
  }

  /** No event of the run loses a record. */
  ghost predicate RecordsAll(s: State, events: seq<Event>)
    requires Steps(Step, s, events).Some?
    decreases |events|
  {
    events == [] || (!LosesRecord(s, events[0]) && RecordsAll(Step(s, events[0]).value, events[1..]))
  }

  lemma {:induction false} UnrecordedIffLost(s: State, events: seq<Event>)
    requires GroupsHold(s) && Steps(Step, s, events).Some?
    ensures Steps(Step, s, events).value.unrecorded == [] <==> s.unrecorded == [] && RecordsAll(s, events)
    decreases |events|
  {
    if events != [] {
      StepKeepsGroups(s, events[0]);
      StepLosesRecord(s, events[0]);
      UnrecordedIffLost(Step(s, events[0]).value, events[1..]);
    }
  }

  /**
   * Between settlements, every voucher has been transferred once if settled and never if pending, exactly when no
   * batch of the run was executed and reported as failed, and no process restarted while it was marking one.
   */
  lemma ExactlyOnceIffRecorded(events: seq<Event>)
    requires Run(events).Some? && Run(events).value.settlement.None?
    ensures ExactlyOnce(Run(events).value) <==> RecordsAll(Init(), events)
  {
    RunKeepsInv(events);
    UnrecordedAreRows(Init(), events);
    UnrecordedIffLost(Init(), events);
    var s := Run(events).value;
    forall i | 0 <= i < |s.rows|
      ensures multiset(s.ledger)[s.rows[i].voucher]
              == (if s.rows[i].status.Settled? then 1 else 0) + multiset(s.unrecorded)[s.rows[i].voucher]
    {
      SettledCount(s.rows, i);
    }
    if s.unrecorded != [] {
      var v := s.unrecorded[0];
      assert v in s.unrecorded && v in multiset(s.unrecorded);
      var i :| 0 <= i < |s.rows| && s.rows[i].voucher == v;
    }
  }

  // ---- A record lost between execution and marking is paid again ----

  function AcceptRun(call: nat, v: Voucher): seq<Event> {
    [Begin(call, 0, v, 10, true), SessionChecked(call, Some(0)), Assessed(call, Approved), Record(call, 10)]
  }

  /** The voucher is executed, but its process stops before marking it. */
  function LoseRun(): seq<Event> {
    [BeginSettlement(0, [0], 20), Submit(Executed("t")), Restart(0)]
  }

  function PayRun(): seq<Event> {
    [BeginSettlement(0, [0], 30), Submit(Executed("u")), MarkOne(40), MarkOne(40)]
  }

  lemma AcceptChecks(s: State, call: nat, v: Voucher, rest: seq<Event>)
    requires v.expiry >= 10 && call !in s.calls && v.nonce !in MemoryOf(s, 0) + s.nonces
    ensures Steps(Step, s, [Begin(call, 0, v, 10, true)] + ([SessionChecked(call, Some(0))] + rest))
            == Steps(Step, s.(calls := s.calls[call := Call(0, v, Assessing)]), rest)
  {
    var s1 := s.(calls := s.calls[call := Call(0, v, Verifying)]);
    StepsFirst(Step, s, Begin(call, 0, v, 10, true), [SessionChecked(call, Some(0))] + rest);
    StepsFirst(Step, s1, SessionChecked(call, Some(0)), rest);
    assert s1.calls[call := Call(0, v, Assessing)] == s.calls[call := Call(0, v, Assessing)];
  }

  lemma AcceptWrites(s: State, call: nat, v: Voucher)
    requires call in s.calls && s.calls[call] == Call(0, v, Assessing) && !HasNonce(s.rows, v.nonce)
    ensures Steps(Step, s, [Assessed(call, Approved)] + [Record(call, 10)])
            == Some(s.(memory := s.memory[0 := MemoryOf(s, 0) + {v.nonce}], nonces := s.nonces + {v.nonce},
                       rows := s.rows + [Row(v, Pending, 10)], calls := s.calls[call := Call(0, v, Accepted)]))
  {
    var s1 := s.(memory := s.memory[0 := MemoryOf(s, 0) + {v.nonce}], nonces := s.nonces + {v.nonce},
                 calls := s.calls[call := Call(0, v, Recording)]);
    StepsFirst(Step, s, Assessed(call, Approved), [Record(call, 10)]);
    assert [Record(call, 10)] == [Record(call, 10)] + [];
    StepsFirst(Step, s1, Record(call, 10), []);
    assert s1.calls[call := Call(0, v, Accepted)] == s.calls[call := Call(0, v, Accepted)];
  }

  /** Accepting a voucher whose nonce is new. */
  lemma AcceptNext(s: State, call: nat, v: Voucher)
    requires v.expiry >= 10 && call !in s.calls
    requires v.nonce !in MemoryOf(s, 0) + s.nonces && !HasNonce(s.rows, v.nonce)
    ensures Steps(Step, s, AcceptRun(call, v))
            == Some(s.(memory := s.memory[0 := MemoryOf(s, 0) + {v.nonce}], nonces := s.nonces + {v.nonce},
                       rows := s.rows + [Row(v, Pending, 10)], calls := s.calls[call := Call(0, v, Accepted)]))
  {
    var s1 := s.(calls := s.calls[call := Call(0, v, Assessing)]);
    var e := AcceptRun(call, v);
    assert e == [e[0]] + ([e[1]] + ([e[2]] + [e[3]]));
    AcceptChecks(s, call, v, [e[2]] + [e[3]]);
    AcceptWrites(s1, call, v);
    assert s1.calls[call := Call(0, v, Accepted)] == s.calls[call := Call(0, v, Accepted)];
  }

  lemma GroupsOfOne(v: Voucher)
    ensures GroupByWallet([v]) == [[v]]
  {
    assert [v][..0] == [];
    assert Keys([v]) == [Key(v)];
    assert OfWallet([v], Key(v)) == [v];
    assert GroupsFor([v], [Key(v)]) == [[v]];
  }

  /** Settling a single pending voucher up to its execution. */
  lemma ExecuteOne(s: State, v: Voucher, now: int, tx: string, rest: seq<Event>)
    requires s.settlement.None? && s.rows == [Row(v, Pending, 10)] && now < v.expiry
    ensures Steps(Step, s, [BeginSettlement(0, [0], now)] + ([Submit(Executed(tx))] + rest))
            == Steps(Step, s.(settlement := Some(Settlement(0, [], [v], tx)), ledger := s.ledger + [v]), rest)
  {
    GroupsOfOne(v);
    assert PickVouchers(s.rows, [0]) == [v];
    assert IsPendingBatch(s.rows, [0], now);
    var s1 := s.(settlement := Some(Settlement(0, [[v]], [], "")));
    assert StepBeginSettlement(s, 0, [0], now) == Some(s1);
    StepsFirst(Step, s, BeginSettlement(0, [0], now), [Submit(Executed(tx))] + rest);
    StepsFirst(Step, s1, Submit(Executed(tx)), rest);
  }

  lemma LoseOne(s: State, v: Voucher)
    requires s.settlement.None? && s.rows == [Row(v, Pending, 10)] && v.expiry > 30 && s.unrecorded == []
    ensures var s' := Steps(Step, s, LoseRun());
            && s'.Some? && s'.value.rows == s.rows && s'.value.settlement.None?
            && s'.value.ledger == s.ledger + [v] && s'.value.unrecorded == [v]
  {
    var e := LoseRun();
    assert e == [e[0]] + ([e[1]] + [e[2]]);
    ExecuteOne(s, v, 20, "t", [e[2]]);
    var s2 := s.(settlement := Some(Settlement(0, [], [v], "t")), ledger := s.ledger + [v]);
    assert [e[2]] == [e[2]] + [];
    StepsFirst(Step, s2, e[2], []);
  }

  lemma PayOne(s: State, v: Voucher)
    requires s.settlement.None? && s.rows == [Row(v, Pending, 10)] && v.expiry > 30
    ensures var s' := Steps(Step, s, PayRun());
            && s'.Some? && s'.value.rows == [Row(v, Settled("u", 40), 10)] && s'.value.settlement.None?
            && s'.value.ledger == s.ledger + [v] && s'.value.unrecorded == s.unrecorded
  {
    var e := PayRun();
    assert e == [e[0]] + ([e[1]] + ([e[2]] + ([e[3]] + [])));
    ExecuteOne(s, v, 30, "u", [e[2]] + ([e[3]] + []));
    var s2 := s.(settlement := Some(Settlement(0, [], [v], "u")), ledger := s.ledger + [v]);
    var s3 := StepMarkOne(s2, 40).value;
    StepsFirst(Step, s2, e[2], [e[3]] + []);
    StepsFirst(Step, s3, e[3], []);
  }

  /** Why the exact condition matters: whatever the voucher, losing its record makes the next settlement pay it again. */
  lemma LostRecordPaysTwice(v: Voucher)
    requires v.expiry > 30
    ensures var s := Run(AcceptRun(0, v) + (LoseRun() + PayRun()));
            && s.Some? && s.value.settlement.None? && s.value.rows == [Row(v, Settled("u", 40), 10)]
            && s.value.ledger == [v, v] && s.value.unrecorded == [v]
  {
    AcceptNext(Init(), 0, v);
    var s := Run(AcceptRun(0, v)).value;
    LoseOne(s, v);
    PayOne(Steps(Step, s, LoseRun()).value, v);
    StepsAppend(Step, s, LoseRun(), PayRun());
    StepsAppend(Step, Init(), AcceptRun(0, v), LoseRun() + PayRun());
  }

  // ---- Nonces that denote the same bytes ----

  /** The text of a bytes32, without which no signature verifies. */
  predicate IsBytes32(nonce: string) {
    |nonce| == 66 && nonce[..2] == "0x" && forall k :: 2 <= k < 66 ==> IsHex(nonce[k])
  }

  /** What is signed of a nonce: its bytes, which do not tell the cases of its digits apart. */
  function NonceBytes(nonce: string): string {
    Lower(nonce)
  }

  /** The nonces a run receives. */
  ghost predicate Receives(events: seq<Event>, sent: string -> bool) {
    forall k :: 0 <= k < |events| && events[k].Begin? ==> sent(events[k].voucher.nonce)
  }

  predicate AcceptedWith(s: State, call: nat, bytes: string) {
    call in s.calls && s.calls[call].phase.Accepted? && NonceBytes(s.calls[call].voucher.nonce) == bytes
  }

  ghost predicate OncePerBytes(s: State) {
    forall bytes, c, d :: AcceptedWith(s, c, bytes) && AcceptedWith(s, d, bytes) ==> c == d
  }

  ghost predicate CallsReceived(s: State, sent: string -> bool) {
    forall c :: c in s.calls ==> sent(s.calls[c].voucher.nonce)
  }

  lemma StepReceives(s: State, e: Event, sent: string -> bool)
    requires CallsReceived(s, sent) && Step(s, e).Some? && (e.Begin? ==> sent(e.voucher.nonce))
    ensures CallsReceived(Step(s, e).value, sent)
  {
  }

  lemma {:induction false} StepsReceive(s: State, events: seq<Event>, sent: string -> bool)
    requires CallsReceived(s, sent) && Receives(events, sent) && Steps(Step, s, events).Some?
    ensures CallsReceived(Steps(Step, s, events).value, sent)
    decreases |events|
  {
    if events != [] {
      StepReceives(s, events[0], sent);
      StepsReceive(Step(s, events[0]).value, events[1..], sent);
    }
  }

  lemma SameTextsOnce(events: seq<Event>, sent: string -> bool)
    requires Run(events).Some? && Receives(events, sent)
    requires forall a, b :: sent(a) && sent(b) && NonceBytes(a) == NonceBytes(b) ==> a == b
    ensures OncePerBytes(Run(events).value)
  {
    RunKeepsInv(events);
    StepsReceive(Init(), events, sent);
  }

  function TwiceRun(v: Voucher, nonce: string): seq<Event> {
    AcceptRun(0, v) + AcceptRun(1, v.(nonce := nonce))
  }

  /** One voucher under two texts of its nonce is accepted twice. */
  lemma OtherTextIsAccepted(v: Voucher, nonce: string)
    requires v.expiry >= 10 && v.nonce != nonce
    ensures var s := Run(TwiceRun(v, nonce));
            && s.Some? && 0 in s.value.calls && s.value.calls[0] == Call(0, v, Accepted)
            && 1 in s.value.calls && s.value.calls[1] == Call(0, v.(nonce := nonce), Accepted)
  {
    AcceptNext(Init(), 0, v);
    AcceptNext(Run(AcceptRun(0, v)).value, 1, v.(nonce := nonce));
    StepsAppend(Step, Init(), AcceptRun(0, v), AcceptRun(1, v.(nonce := nonce)));
  }

  /** In every run, at most one call per signed nonce is accepted, exactly when no two texts received denote the same. */
  lemma OncePerBytesExactly(sent: string -> bool)
    requires forall nonce :: sent(nonce) ==> IsBytes32(nonce)
    ensures (forall events :: Run(events).Some? && Receives(events, sent) ==> OncePerBytes(Run(events).value))
            <==> forall a, b :: sent(a) && sent(b) && NonceBytes(a) == NonceBytes(b) ==> a == b
  {
    if forall a, b :: sent(a) && sent(b) && NonceBytes(a) == NonceBytes(b) ==> a == b {
      forall events | Run(events).Some? && Receives(events, sent)
        ensures OncePerBytes(Run(events).value)
      {
        SameTextsOnce(events, sent);
      }
    } else {
      var a, b :| sent(a) && sent(b) && NonceBytes(a) == NonceBytes(b) && a != b;
      var v := Voucher("", "", 1, a, 10, "", "", "");
      OtherTextIsAccepted(v, b);
      assert Receives(TwiceRun(v, b), sent);
      var s := Run(TwiceRun(v, b)).value;
      assert AcceptedWith(s, 0, NonceBytes(a)) && AcceptedWith(s, 1, NonceBytes(a));
    }
  }

  // ---- The module's own state and loops ----

  function Nonces(vs: seq<Voucher>): (nonces: seq<string>)
    ensures |nonces| == |vs|
  {
    if vs == [] then [] else Nonces(vs[..|vs| - 1]) + [vs[|vs| - 1].nonce]
  }

  function SettleGroups(rows: seq<Row>, groups: seq<seq<Voucher>>, outcomes: seq<Outcome>, at: int): seq<Row>
    requires |groups| == |outcomes|
    decreases |groups|
  {
    if groups == [] then rows
    else
      var rows' := if outcomes[0].Executed? then SettleRows(rows, Nonces(groups[0]), outcomes[0].tx, at) else rows;
      SettleGroups(rows', groups[1..], outcomes[1..], at)
  }

  function ExecutedCount(groups: seq<seq<Voucher>>, outcomes: seq<Outcome>): nat
    requires |groups| == |outcomes|
  {
    if groups == [] then 0
    else (if outcomes[0].Executed? then |groups[0]| else 0) + ExecutedCount(groups[1..], outcomes[1..])
  }

  lemma {:induction false} SettleRowsEntry(rows: seq<Row>, nonces: seq<string>, tx: string, at: int, i: nat)
    requires i < |rows|
    ensures |SettleRows(rows, nonces, tx, at)| == |rows|
    ensures SettleRows(rows, nonces, tx, at)[i]
            == if rows[i].voucher.nonce in nonces then rows[i].(status := Settled(tx, at)) else rows[i]
  {
    if nonces != [] {
      SettleRowsEntry(rows, nonces[..|nonces| - 1], tx, at, i);
      assert nonces == nonces[..|nonces| - 1] + [nonces[|nonces| - 1]];
    }
  }

  predicate InExecutedGroup(nonce: string, groups: seq<seq<Voucher>>, outcomes: seq<Outcome>)
    requires |groups| == |outcomes|
  {
    exists g :: 0 <= g < |groups| && outcomes[g].Executed? && nonce in Nonces(groups[g])
  }

  /** A settlement settles the rows whose nonce is in an executed group, and touches no other row. */
  lemma {:induction false} SettleGroupsEntry(rows: seq<Row>, groups: seq<seq<Voucher>>, outcomes: seq<Outcome>, at: int,
                                             i: nat)
    requires i < |rows| && |groups| == |outcomes|
    ensures var r := SettleGroups(rows, groups, outcomes, at);
            && |r| == |rows| && r[i].voucher == rows[i].voucher
            && (if InExecutedGroup(rows[i].voucher.nonce, groups, outcomes) then r[i].status.Settled? else r[i] == rows[i])
    decreases |groups|
  {
    if groups != [] {
      var executed := outcomes[0].Executed?;
      var rows' := if executed then SettleRows(rows, Nonces(groups[0]), outcomes[0].tx, at) else rows;
      if executed {
        SettleRowsEntry(rows, Nonces(groups[0]), outcomes[0].tx, at, i);
      }
      SettleGroupsEntry(rows', groups[1..], outcomes[1..], at, i);
      var nonce := rows[i].voucher.nonce;
      if g :| 0 <= g < |groups| && outcomes[g].Executed? && nonce in Nonces(groups[g]) {
        if g > 0 {
          assert groups[1..][g - 1] == groups[g] && outcomes[1..][g - 1] == outcomes[g];
          assert InExecutedGroup(nonce, groups[1..], outcomes[1..]);
        }
      }
      if g :| 0 <= g < |groups[1..]| && outcomes[1..][g].Executed? && nonce in Nonces(groups[1..][g]) {
        assert outcomes[g + 1].Executed? && nonce in Nonces(groups[g + 1]);
      }
    }
  }

  datatype BatchSettlementResult = BatchSettlementResult(success: bool, settledCount: nat, failedCount: nat, totalAmount: nat)

  // ---- The calls a batch is made of ----

  /** One `transfer(to, amount)` of the token, sent with no value to the token contract. */
  datatype TokenCall = TokenCall(target: string, value: string, payTo: string, amount: nat)

  function CallsOf(vs: seq<Voucher>, token: string): seq<TokenCall> {
    if vs == [] then [] else CallsOf(vs[..|vs| - 1], token) + [TokenCall(token, "0", vs[|vs| - 1].payTo, vs[|vs| - 1].amount)]
  }

  function PaidTo(calls: seq<TokenCall>, payee: string): nat {
    if calls == [] then 0
    else PaidTo(calls[..|calls| - 1], payee) + if calls[|calls| - 1].payTo == payee then calls[|calls| - 1].amount else 0
  }

  function Payee(payee: string): Voucher -> bool {
    (v: Voucher) => v.payTo == payee
  }

  /** A batch's calls pay every payee exactly the total of its vouchers in the batch. */
  lemma {:induction false} CallsPayVouchers(vs: seq<Voucher>, token: string, payee: string)
    ensures |CallsOf(vs, token)| == |vs| && PaidTo(CallsOf(vs, token), payee) == Total(vs, Payee(payee))
  {
    if vs != [] {
      var before, last := vs[..|vs| - 1], vs[|vs| - 1];
      CallsPayVouchers(before, token, payee);
      TotalAppend(before, [last], Payee(payee));
      assert vs == before + [last];
    }
  }

  class VoucherModule {
    var usedNonces: set<string>
    var nonceTable: set<string>
    var rows: seq<Row>

    constructor ()
      ensures usedNonces == {} && nonceTable == {} && rows == []
    {
      usedNonces, nonceTable, rows := {}, {}, [];
    }

    method MarkNonceUsed(nonce: string)
      modifies this`usedNonces, this`nonceTable
      ensures usedNonces == old(usedNonces) + {nonce} && nonceTable == old(nonceTable) + {nonce}
    {
      usedNonces := usedNonces + {nonce};
      nonceTable := nonceTable + {nonce};
    }

    /** The memory is only a cache: within the table, it never changes an answer, and it stays within the table. */
    method IsNonceUsed(nonce: string) returns (used: bool)
      modifies this`usedNonces
      ensures used == (nonce in old(usedNonces) + nonceTable)
      ensures usedNonces == old(usedNonces) + if used then {nonce} else {}
      ensures old(usedNonces) <= nonceTable ==> used == (nonce in nonceTable) && usedNonces <= nonceTable
    {
      if nonce in usedNonces {
        return true;
      }
      if nonce in nonceTable {
        usedNonces := usedNonces + {nonce};
        return true;
      }
      return false;
    }

    method RecordVoucher(voucher: Voucher, now: int) returns (ok: bool)
      modifies this`rows
      ensures ok == !HasNonce(old(rows), voucher.nonce)
      ensures rows == if ok then old(rows) + [Row(voucher, Pending, now)] else old(rows)
      ensures old(UniqueNonces(rows)) ==> UniqueNonces(rows)
    {
      if HasNonce(rows, voucher.nonce) {
        return false;
      }
      rows := rows + [Row(voucher, Pending, now)];
      return true;
    }

    method MarkVouchersSettled(nonces: seq<string>, tx: string, now: int)
      modifies this`rows
      ensures rows == SettleRows(old(rows), nonces, tx, now)
    {
      for i := 0 to |nonces|
        invariant rows == SettleRows(old(rows), nonces[..i], tx, now)
      {
        assert nonces[..i + 1][..i] == nonces[..i];
        rows := SettleRow(rows, nonces[i], tx, now);
      }
      assert nonces[..|nonces|] == nonces;
    }

    static method GroupVouchersByWallet(vouchers: seq<Voucher>) returns (keys: seq<string>, groups: map<string, seq<Voucher>>)
      ensures keys == Keys(vouchers) && groups.Keys == set k | k in keys
      ensures forall k :: k in keys ==> groups[k] == OfWallet(vouchers, k)
    {
      keys, groups := [], map[];
      for i := 0 to |vouchers|
        invariant keys == Keys(vouchers[..i]) && groups.Keys == set k | k in keys
        invariant forall k :: k in keys ==> groups[k] == OfWallet(vouchers[..i], k)
        invariant forall k :: k !in keys ==> OfWallet(vouchers[..i], k) == []
      {
        assert vouchers[..i + 1][..i] == vouchers[..i];
        var key := Key(vouchers[i]);
        if key !in groups {
          keys, groups := keys + [key], groups[key := []];
        }
        groups := groups[key := groups[key] + [vouchers[i]]];
      }
      assert vouchers[..|vouchers|] == vouchers;
    }

    static method BuildBatchCalldata(vouchers: seq<Voucher>, token: string) returns (calls: seq<TokenCall>)
      ensures calls == CallsOf(vouchers, token)
    {
      calls := [];
      for i := 0 to |vouchers|
        invariant calls == CallsOf(vouchers[..i], token)
      {
        assert vouchers[..i + 1][..i] == vouchers[..i];
        calls := calls + [TokenCall(token, "0", vouchers[i].payTo, vouchers[i].amount)];
      }
      assert vouchers[..|vouchers|] == vouchers;
    }

    /** The body of the settlement loop: the rows change only when the bundler reports success. */
    method SubmitGroup(group: seq<Voucher>, outcome: Outcome, now: int) returns (executed: bool)
      modifies this`rows
      ensures executed == outcome.Executed?
      ensures rows == if executed then SettleRows(old(rows), Nonces(group), outcome.tx, now) else old(rows)
    {
      if outcome.Executed? {
        MarkVouchersSettled(Nonces(group), outcome.tx, now);
        return true;
      }
      return false;
    }

    /** One settlement without interruption; `outcomes` holds the bundler's answer for every group. */
    method SettleVoucherBatch(vouchers: seq<Voucher>, outcomes: seq<Outcome>, now: int)
      returns (result: BatchSettlementResult)
      requires |outcomes| == |Keys(vouchers)|
      modifies this`rows
      ensures rows == SettleGroups(old(rows), GroupByWallet(vouchers), outcomes, now)
      ensures result.settledCount == ExecutedCount(GroupByWallet(vouchers), outcomes)
      ensures result.settledCount + result.failedCount == |vouchers|
      ensures result.success <==> forall g :: 0 <= g < |outcomes| ==> outcomes[g].Executed?
      ensures result.totalAmount == Total(vouchers, All())
    {
      if vouchers == [] {
        return BatchSettlementResult(true, 0, 0, 0);
      }
      var keys, byWallet := GroupVouchersByWallet(vouchers);
      ghost var groups := GroupByWallet(vouchers);
      var settled: nat, failed: nat := 0, 0;
      for g := 0 to |keys|
        invariant SettleGroups(rows, groups[g..], outcomes[g..], now) == SettleGroups(old(rows), groups, outcomes, now)
        invariant settled + ExecutedCount(groups[g..], outcomes[g..]) == ExecutedCount(groups, outcomes)
        invariant settled + failed + |Flatten(groups[g..])| == |Flatten(groups)|
        invariant failed == 0 <==> forall k :: 0 <= k < g ==> outcomes[k].Executed?
      {
        var group := byWallet[keys[g]];
        assert groups[g..][1..] == groups[g + 1..] && outcomes[g..][1..] == outcomes[g + 1..];
        GroupNonEmpty(vouchers, keys[g]);
        var executed := SubmitGroup(group, outcomes[g], now);
        if executed {
          settled := settled + |group|;
        } else {
          failed := failed + |group|;
        }
      }
      GroupingKeepsVouchers(vouchers);
      return BatchSettlementResult(failed == 0, settled, failed, Total(vouchers, All()));
    }
  }

  // ---- The uninterrupted loop is a run of the machine ----

  function Marks(n: nat, now: int): seq<Event> {
    if n == 0 then [] else [MarkOne(now)] + Marks(n - 1, now)
  }

  /** The steps of a settlement loop: every group is submitted, and its vouchers marked if that succeeds. */
  function SettleEvents(groups: seq<seq<Voucher>>, outcomes: seq<Outcome>, now: int): seq<Event>
    requires |groups| == |outcomes|
  {
    if groups == [] then []
    else [Submit(outcomes[0])] + (Marks(if outcomes[0].Executed? then |groups[0]| else 0, now)
                                  + SettleEvents(groups[1..], outcomes[1..], now))
  }

  lemma {:induction false} SettleRowsFirst(rows: seq<Row>, nonce: string, rest: seq<string>, tx: string, at: int)
    ensures SettleRows(rows, [nonce] + rest, tx, at) == SettleRows(SettleRow(rows, nonce, tx, at), rest, tx, at)
  {
    var all := [nonce] + rest;
    if rest == [] {
      assert all == [nonce] && [nonce][..0] == [];
    } else {
      SettleRowsFirst(rows, nonce, rest[..|rest| - 1], tx, at);
      assert all[..|all| - 1] == [nonce] + rest[..|rest| - 1];
    }
  }

  lemma {:induction false} NoncesFirst(v: Voucher, rest: seq<Voucher>)
    ensures Nonces([v] + rest) == [v.nonce] + Nonces(rest)
  {
    var all := [v] + rest;
    if rest == [] {
      assert all == [v] && [v][..0] == [];
    } else {
      NoncesFirst(v, rest[..|rest| - 1]);
      assert all[..|all| - 1] == [v] + rest[..|rest| - 1];
    }
  }

  lemma {:induction false} MarksSettle(s: State, now: int, rest: seq<Event>)
    requires s.settlement.Some?
    ensures var p := s.settlement.value;
            Steps(Step, s, Marks(|p.unmarked|, now) + rest)
            == Steps(Step, s.(rows := SettleRows(s.rows, Nonces(p.unmarked), p.tx, now),
                              settlement := Some(p.(unmarked := []))), rest)
    decreases |s.settlement.value.unmarked|
  {
    var p := s.settlement.value;
    if p.unmarked == [] {
      assert Marks(0, now) + rest == rest;
      assert s.(settlement := Some(p.(unmarked := []))) == s;
    } else {
      var v, others := p.unmarked[0], p.unmarked[1..];
      var s' := s.(rows := SettleRow(s.rows, v.nonce, p.tx, now), settlement := Some(p.(unmarked := others)));
      assert Marks(|p.unmarked|, now) + rest == [MarkOne(now)] + (Marks(|others|, now) + rest);
      StepsFirst(Step, s, MarkOne(now), Marks(|others|, now) + rest);
      MarksSettle(s', now, rest);
      NoncesFirst(v, others);
      assert p.unmarked == [v] + others;
      SettleRowsFirst(s.rows, v.nonce, Nonces(others), p.tx, now);
    }
  }

  lemma GroupSettles(s: State, outcome: Outcome, now: int, later: seq<Event>)
    requires s.settlement.Some? && s.settlement.value.unmarked == [] && s.settlement.value.groups != []
    ensures var p, q := s.settlement.value, StepSubmit(s, outcome).value.settlement.value;
            var rows' := if outcome.Executed? then SettleRows(s.rows, Nonces(p.groups[0]), outcome.tx, now) else s.rows;
            var s' := StepSubmit(s, outcome).value.(rows := rows', settlement := Some(q.(unmarked := [])));
            && Steps(Step, s, [Submit(outcome)] + (Marks(if outcome.Executed? then |p.groups[0]| else 0, now) + later))
               == Steps(Step, s', later)
            && q.groups == p.groups[1..]
  {
    var group := s.settlement.value.groups[0];
    var s1 := StepSubmit(s, outcome).value;
    StepsFirst(Step, s, Submit(outcome), Marks(if outcome.Executed? then |group| else 0, now) + later);
    assert s1.settlement.value.unmarked == if outcome.Executed? then group else [];
    MarksSettle(s1, now, later);
    assert SettleRows(s.rows, Nonces([]), s1.settlement.value.tx, now) == s.rows;
  }

  /** Run without interruption, the machine's settlement leaves the rows that the settlement loop computes. */
  lemma {:induction false} LoopRefinesMachine(s: State, outcomes: seq<Outcome>, now: int)
    requires s.settlement.Some? && s.settlement.value.unmarked == [] && |s.settlement.value.groups| == |outcomes|
    ensures var groups := s.settlement.value.groups;
            var s' := Steps(Step, s, SettleEvents(groups, outcomes, now));
            && s'.Some? && s'.value.rows == SettleGroups(s.rows, groups, outcomes, now)
            && s'.value.settlement.Some? && s'.value.settlement.value.groups == [] && s'.value.settlement.value.unmarked == []
    decreases |outcomes|
  {
    var p := s.settlement.value;
    if p.groups != [] {
      var outcome, later := outcomes[0], SettleEvents(p.groups[1..], outcomes[1..], now);
      GroupSettles(s, outcome, now, later);
      var q := StepSubmit(s, outcome).value.settlement.value;
      var rows' := if outcome.Executed? then SettleRows(s.rows, Nonces(p.groups[0]), outcome.tx, now) else s.rows;
      LoopRefinesMachine(StepSubmit(s, outcome).value.(rows := rows', settlement := Some(q.(unmarked := []))),
                         outcomes[1..], now);
    }
  }
}
