/** The chunked event indexer of src/core/event-indexer.ts. */
module EventIndexer {
  import opened Integers

  const BLOCK_CHUNK := 2000
  const GENESIS_BLOCK := 43_500_000
  const FIRST_RUN_MAX_SCAN := 200_000

  /** A log of the chain; `decodes` says whether parseLog accepts it. */
  datatype Log = Log(address: string, topic: string, block: nat, tx: string, index: nat, decodes: bool)

  /** An indexed contract and the topics of its business events. */
  datatype Contract = Contract(name: string, address: string, topics: set<string>)

  // The UNIQUE (tx_hash, log_index) of indexed_events.
  type Key = (string, nat)

  datatype Row = Row(contractName: string, address: string, topic: string, block: nat)

  type Store = map<Key, Row>

  /** What the provider makes of one chunk: its logs, its two halves after a size error, or nothing. */
  datatype Answer = Direct | Halves | Unanswered

  function KeyOf(l: Log): Key {
    (l.tx, l.index)
  }

  function RowOf(c: Contract, l: Log): Row {
    Row(c.name, c.address, l.topic, l.block)
  }

  predicate Wanted(c: Contract, l: Log) {
    l.address == c.address && l.topic in c.topics
  }

  /** getLogs: the contract's wanted logs in a block range, in chain order. */
  function GetLogs(chain: seq<Log>, c: Contract, from: int, upTo: int): seq<Log> {
    if chain == [] then []
    else (if Wanted(c, chain[0]) && from <= chain[0].block <= upTo then [chain[0]] else []) + GetLogs(chain[1..], c, from, upTo)
  }

  /** `INSERT OR IGNORE` under the unique key. */
  function StoreEvent(store: Store, c: Contract, l: Log): Store {
    if KeyOf(l) in store then store else store[KeyOf(l) := RowOf(c, l)]
  }

  function StoreLogs(store: Store, c: Contract, logs: seq<Log>): Store
    decreases |logs|
  {
    if logs == [] then store
    else StoreLogs(if logs[0].decodes then StoreEvent(store, c, logs[0]) else store, c, logs[1..])
  }

  function ChunkEnd(start: int, upTo: int): int {
    Min(start + BLOCK_CHUNK - 1, upTo)
  }

  function ChunkLogs(chain: seq<Log>, c: Contract, start: int, end: int, answer: Answer): seq<Log> {
    match answer
    case Direct => GetLogs(chain, c, start, end)
    case Halves =>
      var mid := (start + end) / 2;
      GetLogs(chain, c, start, mid) + GetLogs(chain, c, mid + 1, end)
    case Unanswered => []
  }

  datatype Indexed = Indexed(store: Store, lastBlock: int)

  /** The chunk loop from `start`; `answers` gives the provider's answer for the chunk starting at a block. */
  function IndexChunks(store: Store, lastBlock: int, c: Contract, chain: seq<Log>, start: int, upTo: int,
                       answers: int -> Answer): Indexed
    decreases upTo - start
  {
    if start > upTo then Indexed(store, lastBlock)
    else
      var end := ChunkEnd(start, upTo);
      IndexChunks(StoreLogs(store, c, ChunkLogs(chain, c, start, end, answers(start))),
                  if answers(start).Unanswered? then lastBlock else Max(lastBlock, end),
                  c, chain, start + BLOCK_CHUNK, upTo, answers)
  }

  function IndexContractSpec(store: Store, c: Contract, chain: seq<Log>, from: int, upTo: int, answers: int -> Answer): Indexed {
    if c.topics == {} then Indexed(store, upTo) else IndexChunks(store, from, c, chain, from, upTo, answers)
  }

  datatype State = State(store: Store, checkpoints: map<string, int>)

  function CheckpointOf(s: State, name: string): int {
    Max(if name in s.checkpoints then s.checkpoints[name] else 0, GENESIS_BLOCK)
  }

  /** Where a round starts scanning a contract: after its checkpoint, or at the cap if that is too far back. */
  function ScanStart(s: State, name: string, head: int): int {
    var from := CheckpointOf(s, name) + 1;
    if head - from > FIRST_RUN_MAX_SCAN then head - FIRST_RUN_MAX_SCAN else from
  }

  function IndexOne(s: State, c: Contract, chain: seq<Log>, head: int, answers: int -> Answer): State {
    var from := ScanStart(s, c.name, head);
    if from > head then s
    else
      var indexed := IndexContractSpec(s.store, c, chain, from, head, answers);
      State(indexed.store, s.checkpoints[c.name := indexed.lastBlock])
  }

  /** One run of the indexer: the head it saw, and the answers for every contract's chunks. */
  datatype Round = Round(head: int, answers: string -> int -> Answer)

  function IndexAll(s: State, contracts: seq<Contract>, chain: seq<Log>, round: Round): State
    decreases |contracts|
  {
    if contracts == [] then s
    else IndexAll(IndexOne(s, contracts[0], chain, round.head, round.answers(contracts[0].name)), contracts[1..], chain, round)
  }

  function RunRounds(s: State, contracts: seq<Contract>, chain: seq<Log>, rounds: seq<Round>): State
    decreases |rounds|
  {
    if rounds == [] then s else RunRounds(IndexAll(s, contracts, chain, rounds[0]), contracts, chain, rounds[1..])
  }

  // ---- The module's state and loops ----

  class Indexer {
    var store: Store
    var checkpoints: map<string, int>

    function Abstract(): State
      reads this
    {
      State(store, checkpoints)
    }

    constructor ()
      ensures Abstract() == State(map[], map[])
    {
      store, checkpoints := map[], map[];
    }

    method StoreOne(c: Contract, l: Log)
      modifies this`store
      ensures store == StoreEvent(old(store), c, l)
    {
      if KeyOf(l) in store {
        return;
      }
      store := store[KeyOf(l) := RowOf(c, l)];
    }

    /** Store the logs of an answered chunk that decode. */
    method StoreAll(c: Contract, logs: seq<Log>)
      modifies this`store
      ensures store == StoreLogs(old(store), c, logs)
    {
      for i := 0 to |logs|
        invariant StoreLogs(store, c, logs[i..]) == StoreLogs(old(store), c, logs)
      {
        assert logs[i..][1..] == logs[i + 1..];
        if logs[i].decodes {
          StoreOne(c, logs[i]);
        }
      }
    }

    /** One chunk: its logs and its end count only when it is answered. */
    method IndexChunk(c: Contract, chain: seq<Log>, start: int, end: int, answer: Answer, last: int)
      returns (lastBlock: int)
      modifies this`store
      ensures store == StoreLogs(old(store), c, ChunkLogs(chain, c, start, end, answer))
      ensures lastBlock == if answer.Unanswered? then last else Max(last, end)
    {
      lastBlock := last;
      if !answer.Unanswered? {
        StoreAll(c, ChunkLogs(chain, c, start, end, answer));
        lastBlock := Max(lastBlock, end);
      }
    }

    method IndexContract(c: Contract, chain: seq<Log>, from: int, upTo: int, answers: int -> Answer)
      returns (lastBlock: int)
      modifies this`store
      ensures Indexed(store, lastBlock) == IndexContractSpec(old(store), c, chain, from, upTo, answers)
    {
      lastBlock := from;
      if c.topics == {} {
        return upTo;
      }
      var start := from;
      ghost var goal := IndexChunks(store, from, c, chain, from, upTo, answers);
      while start <= upTo
        invariant IndexChunks(store, lastBlock, c, chain, start, upTo, answers) == goal
        decreases upTo - start
      {
        var end := Min(start + BLOCK_CHUNK - 1, upTo);
        lastBlock := IndexChunk(c, chain, start, end, answers(start), lastBlock);
        start := start + BLOCK_CHUNK;
      }
    }

    method IndexOneContract(c: Contract, chain: seq<Log>, head: int, answers: int -> Answer)
      modifies this
      ensures Abstract() == IndexOne(old(Abstract()), c, chain, head, answers)
    {
      var from := CheckpointOf(State(store, checkpoints), c.name) + 1;
      if head - from > FIRST_RUN_MAX_SCAN {
        from := head - FIRST_RUN_MAX_SCAN;
      }
      if from > head {
        return;
      }
      var lastBlock := IndexContract(c, chain, from, head, answers);
      checkpoints := checkpoints[c.name := lastBlock];
    }

    method RunIndexer(contracts: seq<Contract>, chain: seq<Log>, round: Round)
      modifies this
      ensures Abstract() == IndexAll(old(Abstract()), contracts, chain, round)
    {
      for i := 0 to |contracts|
        invariant IndexAll(Abstract(), contracts[i..], chain, round) == IndexAll(old(Abstract()), contracts, chain, round)
      {
        assert contracts[i..][0] == contracts[i] && contracts[i..][1..] == contracts[i + 1..];
        IndexOneContract(contracts[i], chain, round.head, round.answers(contracts[i].name));
      }
    }
  }

  // ---- What the store holds ----

  ghost predicate UniqueKeys(chain: seq<Log>) {
    forall l, m :: l in chain && m in chain && KeyOf(l) == KeyOf(m) ==> l == m
  }

  ghost predicate Distinct(contracts: seq<Contract>) {
    forall c, d :: c in contracts && d in contracts && (c.address == d.address || c.name == d.name) ==> c == d
  }

  ghost predicate RowIsReal(contracts: seq<Contract>, chain: seq<Log>, key: Key, row: Row) {
    exists c, l :: c in contracts && l in chain && Wanted(c, l) && l.decodes && KeyOf(l) == key && row == RowOf(c, l)
  }

  /** Every row is a wanted, decodable log of an indexed contract. */
  ghost predicate Sound(store: Store, contracts: seq<Contract>, chain: seq<Log>) {
    forall key :: key in store ==> RowIsReal(contracts, chain, key, store[key])
  }

  predicate Recorded(store: Store, c: Contract, l: Log) {
    KeyOf(l) in store && store[KeyOf(l)] == RowOf(c, l)
  }

  ghost predicate Relevant(c: Contract, chain: seq<Log>, l: Log) {
    l in chain && Wanted(c, l) && l.decodes
  }

  /** One row (the key is unique) for each wanted, decodable log of the contract after the genesis block, up to `upTo`. */
  ghost predicate Complete(store: Store, c: Contract, chain: seq<Log>, upTo: int) {
    forall l :: Relevant(c, chain, l) && GENESIS_BLOCK < l.block <= upTo ==> Recorded(store, c, l)
  }

  ghost predicate World(contracts: seq<Contract>, chain: seq<Log>) {
    UniqueKeys(chain) && Distinct(contracts)
  }

  lemma {:induction false} GetLogsExact(chain: seq<Log>, c: Contract, from: int, upTo: int, l: Log)
    ensures l in GetLogs(chain, c, from, upTo) <==> l in chain && Wanted(c, l) && from <= l.block <= upTo
  {
    if chain != [] {
      GetLogsExact(chain[1..], c, from, upTo, l);
      assert l in chain <==> l == chain[0] || l in chain[1..];
    }
  }

  /** Both ways of answering a chunk give exactly its logs. */
  lemma ChunkLogsExact(chain: seq<Log>, c: Contract, start: int, end: int, answer: Answer, l: Log)
    requires start <= end
    ensures l in ChunkLogs(chain, c, start, end, answer)
            <==> !answer.Unanswered? && l in chain && Wanted(c, l) && start <= l.block <= end
  {
    var mid := (start + end) / 2;
    GetLogsExact(chain, c, start, end, l);
    GetLogsExact(chain, c, start, mid, l);
    GetLogsExact(chain, c, mid + 1, end, l);
  }

  /** In a sound store, a stored key of a contract's log holds that contract's row. */
  lemma StoredIsRecorded(store: Store, contracts: seq<Contract>, chain: seq<Log>, c: Contract, l: Log)
    requires World(contracts, chain) && Sound(store, contracts, chain) && c in contracts && Relevant(c, chain, l)
    ensures KeyOf(l) in store <==> Recorded(store, c, l)
  {
    if KeyOf(l) in store {
      var d, m :| d in contracts && m in chain && Wanted(d, m) && m.decodes && KeyOf(m) == KeyOf(l)
                  && store[KeyOf(l)] == RowOf(d, m);
      assert m == l && d == c;
    }
  }

  /** Storing logs of one contract adds exactly the decodable ones. */
  lemma {:induction false} StoreLogsExact(store: Store, contracts: seq<Contract>, chain: seq<Log>, c: Contract, logs: seq<Log>)
    requires World(contracts, chain) && Sound(store, contracts, chain) && c in contracts
    requires forall l :: l in logs ==> l in chain && Wanted(c, l)
    ensures var after := StoreLogs(store, c, logs);
            && Sound(after, contracts, chain)
            && (forall key :: key in store ==> key in after && after[key] == store[key])
            && (forall l :: l in chain ==>
                  (KeyOf(l) in after <==> KeyOf(l) in store || (l in logs && l.decodes)))
    decreases |logs|
  {
    if logs != [] {
      var l := logs[0];
      var store' := if l.decodes then StoreEvent(store, c, l) else store;
      if l.decodes && KeyOf(l) !in store {
        assert RowIsReal(contracts, chain, KeyOf(l), RowOf(c, l));
      }
      StoreLogsExact(store', contracts, chain, c, logs[1..]);
    }
  }

  // ---- One pass over a contract ----

  /** The chunk of a scan from `from` that a block falls in. */
  function ChunkOf(from: int, block: int): int {
    from + (block - from) / BLOCK_CHUNK * BLOCK_CHUNK
  }

  predicate AnsweredAt(from: int, answers: int -> Answer, block: int) {
    !answers(ChunkOf(from, block)).Unanswered?
  }

  predicate Scanned(from: int, upTo: int, answers: int -> Answer, block: int) {
    from <= block <= upTo && AnsweredAt(from, answers, block)
  }

  lemma ChunkOfNext(start: int, block: int)
    requires start <= block
    ensures if block < start + BLOCK_CHUNK then ChunkOf(start, block) == start
            else ChunkOf(start + BLOCK_CHUNK, block) == ChunkOf(start, block)
  {
  }

  lemma ChunkExact(store: Store, contracts: seq<Contract>, chain: seq<Log>, c: Contract, start: int, end: int, answer: Answer)
    requires World(contracts, chain) && Sound(store, contracts, chain) && c in contracts && start <= end
    ensures var after := StoreLogs(store, c, ChunkLogs(chain, c, start, end, answer));
            && Sound(after, contracts, chain)
            && (forall key :: key in store ==> key in after && after[key] == store[key])
            && (forall l :: l in chain ==>
                  (KeyOf(l) in after
                   <==> KeyOf(l) in store || (Relevant(c, chain, l) && !answer.Unanswered? && start <= l.block <= end)))
  {
    var logs := ChunkLogs(chain, c, start, end, answer);
    forall l
      ensures l in logs <==> !answer.Unanswered? && l in chain && Wanted(c, l) && start <= l.block <= end
    {
      ChunkLogsExact(chain, c, start, end, answer, l);
    }
    StoreLogsExact(store, contracts, chain, c, logs);
  }

  /** The chunk loop stores exactly the wanted, decodable logs of the answered chunks, and keeps every other row. */
  lemma {:induction false} IndexExact(store: Store, lastBlock: int, contracts: seq<Contract>, chain: seq<Log>, c: Contract,
                                      start: int, upTo: int, answers: int -> Answer)
    requires World(contracts, chain) && Sound(store, contracts, chain) && c in contracts
    ensures var after := IndexChunks(store, lastBlock, c, chain, start, upTo, answers).store;
            && Sound(after, contracts, chain)
            && (forall key :: key in store ==> key in after && after[key] == store[key])
            && (forall l :: l in chain ==>
                  (KeyOf(l) in after
                   <==> KeyOf(l) in store || (Relevant(c, chain, l) && Scanned(start, upTo, answers, l.block))))
    decreases upTo - start
  {
    if start <= upTo {
      var end := ChunkEnd(start, upTo);
      var store' := StoreLogs(store, c, ChunkLogs(chain, c, start, end, answers(start)));
      var last' := if answers(start).Unanswered? then lastBlock else Max(lastBlock, end);
      ChunkExact(store, contracts, chain, c, start, end, answers(start));
      IndexExact(store', last', contracts, chain, c, start + BLOCK_CHUNK, upTo, answers);
      forall l | l in chain
        ensures Scanned(start, upTo, answers, l.block)
                <==> (!answers(start).Unanswered? && start <= l.block <= end)
                     || Scanned(start + BLOCK_CHUNK, upTo, answers, l.block)
      {
        if start <= l.block {
          ChunkOfNext(start, l.block);
        }
      }
    }
  }

  ghost predicate NoneAnswered(start: int, upTo: int, answers: int -> Answer) {
    forall block :: start <= block <= upTo ==> !AnsweredAt(start, answers, block)
  }

  /** The last block of the last answered chunk, or another block where none is answered. */
  function LastAnswered(start: int, upTo: int, answers: int -> Answer, otherwise: int): int
    decreases upTo - start
  {
    if start > upTo then otherwise
    else LastAnswered(start + BLOCK_CHUNK, upTo, answers,
                      if answers(start).Unanswered? then otherwise else ChunkEnd(start, upTo))
  }

  lemma {:induction false} LastBlockIsLastAnswered(store: Store, lastBlock: int, c: Contract, chain: seq<Log>,
                                                   start: int, upTo: int, answers: int -> Answer)
    requires lastBlock <= start
    ensures IndexChunks(store, lastBlock, c, chain, start, upTo, answers).lastBlock
            == LastAnswered(start, upTo, answers, lastBlock)
    decreases upTo - start
  {
    if start <= upTo {
      var end := ChunkEnd(start, upTo);
      LastBlockIsLastAnswered(StoreLogs(store, c, ChunkLogs(chain, c, start, end, answers(start))),
                              if answers(start).Unanswered? then lastBlock else end,
                              c, chain, start + BLOCK_CHUNK, upTo, answers);
    }
  }

  lemma AnsweredNext(start: int, answers: int -> Answer, block: int)
    requires start <= block
    ensures AnsweredAt(start, answers, block)
            == if block < start + BLOCK_CHUNK then !answers(start).Unanswered?
               else AnsweredAt(start + BLOCK_CHUNK, answers, block)
  {
    ChunkOfNext(start, block);
  }

  /** It is the greatest answered block of the scan, however answered and unanswered chunks alternate. */
  lemma {:induction false} LastAnsweredExact(start: int, upTo: int, answers: int -> Answer, otherwise: int)
    ensures var last := LastAnswered(start, upTo, answers, otherwise);
            && (NoneAnswered(start, upTo, answers) ==> last == otherwise)
            && (!NoneAnswered(start, upTo, answers) ==> Scanned(start, upTo, answers, last))
            && (forall block :: Scanned(start, upTo, answers, block) ==> block <= last)
    decreases upTo - start
  {
    if start <= upTo {
      var next, end := start + BLOCK_CHUNK, ChunkEnd(start, upTo);
      LastAnsweredExact(next, upTo, answers, if answers(start).Unanswered? then otherwise else end);
      forall block | start <= block <= upTo
        ensures AnsweredAt(start, answers, block)
                == if block < next then !answers(start).Unanswered? else AnsweredAt(next, answers, block)
      {
        AnsweredNext(start, answers, block);
      }
      assert Scanned(start, upTo, answers, end) == !answers(start).Unanswered?;
      forall block | Scanned(start, upTo, answers, block)
        ensures block <= LastAnswered(start, upTo, answers, otherwise)
      {
        assert block >= next ==> Scanned(next, upTo, answers, block);
      }
    }
  }

  // ---- Checkpoints ----

  /** The store is sound, and complete for every contract up to its checkpoint. */
  ghost predicate Inv(s: State, contracts: seq<Contract>, chain: seq<Log>) {
    && Sound(s.store, contracts, chain)
    && (forall c :: c in contracts ==> Complete(s.store, c, chain, CheckpointOf(s, c.name)))
  }

  /** The checkpoint a pass moves to, known from its answers alone. */
  function NewCheckpoint(s: State, c: Contract, head: int, answers: int -> Answer): int {
    var from := ScanStart(s, c.name, head);
    if c.topics == {} then head else LastAnswered(from, head, answers, from)
  }

  lemma CheckpointAfterPass(s: State, c: Contract, chain: seq<Log>, head: int, answers: int -> Answer)
    requires ScanStart(s, c.name, head) <= head
    ensures CheckpointOf(IndexOne(s, c, chain, head, answers), c.name) == NewCheckpoint(s, c, head, answers)
    ensures CheckpointOf(s, c.name) < ScanStart(s, c.name, head) <= NewCheckpoint(s, c, head, answers) <= head
  {
    var from := ScanStart(s, c.name, head);
    LastAnsweredExact(from, head, answers, from);
    LastBlockIsLastAnswered(s.store, from, c, chain, from, head, answers);
  }

  /** A relevant log a pass skips: at or below the new checkpoint, in no answered chunk, and not stored before. */
  ghost predicate Skipped(s: State, c: Contract, chain: seq<Log>, head: int, answers: int -> Answer, l: Log) {
    && Relevant(c, chain, l)
    && CheckpointOf(s, c.name) < l.block <= NewCheckpoint(s, c, head, answers)
    && !Scanned(ScanStart(s, c.name, head), head, answers, l.block) && KeyOf(l) !in s.store
  }

  lemma RecordedAfterPass(s: State, contracts: seq<Contract>, chain: seq<Log>, c: Contract, head: int,
                          answers: int -> Answer, l: Log)
    requires World(contracts, chain) && Inv(s, contracts, chain) && c in contracts && Relevant(c, chain, l)
    requires ScanStart(s, c.name, head) <= head
    ensures Recorded(s.store, c, l) <==> KeyOf(l) in s.store
    ensures Recorded(IndexOne(s, c, chain, head, answers).store, c, l)
            <==> KeyOf(l) in s.store || Scanned(ScanStart(s, c.name, head), head, answers, l.block)
  {
    var from, s' := ScanStart(s, c.name, head), IndexOne(s, c, chain, head, answers);
    IndexExact(s.store, from, contracts, chain, c, from, head, answers);
    StoredIsRecorded(s.store, contracts, chain, c, l);
    StoredIsRecorded(s'.store, contracts, chain, c, l);
  }

  lemma PassStaysSound(s: State, contracts: seq<Contract>, chain: seq<Log>, c: Contract, head: int, answers: int -> Answer)
    requires World(contracts, chain) && Inv(s, contracts, chain) && c in contracts
    ensures Sound(IndexOne(s, c, chain, head, answers).store, contracts, chain)
  {
    var from := ScanStart(s, c.name, head);
    IndexExact(s.store, from, contracts, chain, c, from, head, answers);
  }

  ghost predicate CompleteAfter(s: State, c: Contract, chain: seq<Log>, head: int, answers: int -> Answer) {
    var s' := IndexOne(s, c, chain, head, answers); Complete(s'.store, c, chain, CheckpointOf(s', c.name))
  }

  /**
   * After a pass, the store is complete up to the new checkpoint exactly when the pass skipped no log: none in a
   * chunk that stayed unanswered below the last answered one, none below the start of a capped scan.
   */
  lemma PassExact(s: State, contracts: seq<Contract>, chain: seq<Log>, c: Contract, head: int, answers: int -> Answer)
    requires World(contracts, chain) && Inv(s, contracts, chain) && c in contracts
    requires ScanStart(s, c.name, head) <= head
    ensures CompleteAfter(s, c, chain, head, answers) <==> forall l :: !Skipped(s, c, chain, head, answers, l)
  {
    var s' := IndexOne(s, c, chain, head, answers);
    CheckpointAfterPass(s, c, chain, head, answers);
    if forall l :: !Skipped(s, c, chain, head, answers, l) {
      forall l | Relevant(c, chain, l) && GENESIS_BLOCK < l.block <= CheckpointOf(s', c.name)
        ensures Recorded(s'.store, c, l)
      {
        RecordedAfterPass(s, contracts, chain, c, head, answers, l);
        assert !Skipped(s, c, chain, head, answers, l);
      }
    } else {
      var l :| Skipped(s, c, chain, head, answers, l);
      RecordedAfterPass(s, contracts, chain, c, head, answers, l);
      assert !Recorded(s'.store, c, l);
    }
  }

  // ---- Which passes lose nothing ----

  /** The answered chunks of a scan are its first ones, at least one. */
  ghost predicate AnsweredPrefix(start: int, upTo: int, answers: int -> Answer) {
    && AnsweredAt(start, answers, start)
    && forall a, b :: start <= a <= b <= upTo && AnsweredAt(start, answers, b) ==> AnsweredAt(start, answers, a)
  }

  /** Nothing to look for, nothing to scan, or an uncapped scan whose answered chunks are its first ones. */
  ghost predicate GoodPass(s: State, c: Contract, head: int, answers: int -> Answer) {
    var from := CheckpointOf(s, c.name) + 1;
    c.topics == {} || head < from || (head - from <= FIRST_RUN_MAX_SCAN && AnsweredPrefix(from, head, answers))
  }

  /** A good pass answers every block up to its new checkpoint. */
  lemma GoodPassSkipsNothing(s: State, contracts: seq<Contract>, chain: seq<Log>, c: Contract, head: int,
                             answers: int -> Answer)
    requires World(contracts, chain) && Inv(s, contracts, chain) && c in contracts && GoodPass(s, c, head, answers)
    ensures CompleteAfter(s, c, chain, head, answers)
  {
    var from := CheckpointOf(s, c.name) + 1;
    if ScanStart(s, c.name, head) <= head {
      LastAnsweredExact(from, head, answers, from);
      PassExact(s, contracts, chain, c, head, answers);
    }
  }

  /** Any other pass leaves a block below its new checkpoint unread. */
  lemma OtherPassLeavesGap(s: State, c: Contract, head: int, answers: int -> Answer) returns (block: nat)
    requires !GoodPass(s, c, head, answers)
    ensures ScanStart(s, c.name, head) <= head
    ensures CheckpointOf(s, c.name) < block <= NewCheckpoint(s, c, head, answers)
    ensures !Scanned(ScanStart(s, c.name, head), head, answers, block)
  {
    var from := CheckpointOf(s, c.name) + 1;
    var start := ScanStart(s, c.name, head);
    LastAnsweredExact(start, head, answers, start);
    block := from;
    if start == from && AnsweredAt(from, answers, from) {
      var a, b :| from <= a <= b <= head && AnsweredAt(from, answers, b) && !AnsweredAt(from, answers, a);
      assert Scanned(from, head, answers, b);
      block := a;
    }
  }

  /** Above every log index of the chain. */
  function NextIndex(chain: seq<Log>): (n: nat)
    ensures forall l :: l in chain ==> l.index < n
  {
    if chain == [] then 0 else Max(chain[0].index + 1, NextIndex(chain[1..]))
  }

  lemma OneMoreLog(s: State, contracts: seq<Contract>, chain: seq<Log>, c: Contract, l: Log)
    requires World(contracts, chain) && Inv(s, contracts, chain) && c in contracts
    requires Wanted(c, l) && l.block > CheckpointOf(s, c.name) && l.index == NextIndex(chain)
    ensures World(contracts, chain + [l]) && Inv(s, contracts, chain + [l]) && KeyOf(l) !in s.store
  {
    var more := chain + [l];
    forall key | key in s.store
      ensures RowIsReal(contracts, more, key, s.store[key]) && key != KeyOf(l)
    {
      assert RowIsReal(contracts, chain, key, s.store[key]);
      var d, m :| d in contracts && m in chain && Wanted(d, m) && m.decodes && KeyOf(m) == key
                  && s.store[key] == RowOf(d, m);
      assert m in more;
    }
    forall d | d in contracts
      ensures Complete(s.store, d, more, CheckpointOf(s, d.name))
    {
      assert Complete(s.store, d, chain, CheckpointOf(s, d.name));
      assert Wanted(d, l) ==> d == c;
    }
  }

  /** A block left unread may hold a log, and then the checkpoint stands above a log that is not stored. */
  lemma GapMayHoldLog(s: State, contracts: seq<Contract>, chain: seq<Log>, c: Contract, head: int,
                      answers: int -> Answer, block: nat) returns (more: seq<Log>)
    requires World(contracts, chain) && Inv(s, contracts, chain) && c in contracts && c.topics != {}
    requires ScanStart(s, c.name, head) <= head
    requires CheckpointOf(s, c.name) < block <= NewCheckpoint(s, c, head, answers)
    requires !Scanned(ScanStart(s, c.name, head), head, answers, block)
    ensures World(contracts, more) && Inv(s, contracts, more) && !CompleteAfter(s, c, more, head, answers)
  {
    var topic :| topic in c.topics;
    var l := Log(c.address, topic, block, "", NextIndex(chain), true);
    OneMoreLog(s, contracts, chain, c, l);
    more := chain + [l];
    PassExact(s, contracts, more, c, head, answers);
    assert Skipped(s, c, more, head, answers, l);
  }

  /**
   * A pass leaves the store complete up to its new checkpoint, whatever logs the chain holds, exactly when there is
   * nothing to look for or to scan, or the scan is not capped and its answered chunks are its first ones.
   */
  lemma CompleteForEveryChain(s: State, contracts: seq<Contract>, chain: seq<Log>, c: Contract, head: int,
                              answers: int -> Answer)
    requires World(contracts, chain) && Inv(s, contracts, chain) && c in contracts
    ensures (forall other :: World(contracts, other) && Inv(s, contracts, other)
                             ==> CompleteAfter(s, c, other, head, answers))
            <==> GoodPass(s, c, head, answers)
  {
    if GoodPass(s, c, head, answers) {
      forall other | World(contracts, other) && Inv(s, contracts, other)
        ensures CompleteAfter(s, c, other, head, answers)
      {
        GoodPassSkipsNothing(s, contracts, other, c, head, answers);
      }
    } else {
      var block := OtherPassLeavesGap(s, c, head, answers);
      var more := GapMayHoldLog(s, contracts, chain, c, head, answers, block);
      assert !CompleteAfter(s, c, more, head, answers);
    }
  }

  // ---- Runs ----

  /** Another contract's pass adds rows but keeps every one there was, and its own checkpoint moves alone. */
  lemma PassKeepsOthers(s: State, contracts: seq<Contract>, chain: seq<Log>, c: Contract, head: int, answers: int -> Answer,
                        d: Contract)
    requires World(contracts, chain) && Inv(s, contracts, chain) && c in contracts && d in contracts && d != c
    ensures var s' := IndexOne(s, c, chain, head, answers); Complete(s'.store, d, chain, CheckpointOf(s', d.name))
  {
    var from := ScanStart(s, c.name, head);
    if from <= head && c.topics != {} {
      IndexExact(s.store, from, contracts, chain, c, from, head, answers);
    }
  }

  lemma GoodPassKeepsInv(s: State, contracts: seq<Contract>, chain: seq<Log>, c: Contract, head: int,
                         answers: int -> Answer)
    requires World(contracts, chain) && Inv(s, contracts, chain) && c in contracts && GoodPass(s, c, head, answers)
    ensures Inv(IndexOne(s, c, chain, head, answers), contracts, chain)
  {
    var s' := IndexOne(s, c, chain, head, answers);
    PassStaysSound(s, contracts, chain, c, head, answers);
    forall d | d in contracts
      ensures Complete(s'.store, d, chain, CheckpointOf(s', d.name))
    {
      if d == c {
        GoodPassSkipsNothing(s, contracts, chain, c, head, answers);
      } else {
        PassKeepsOthers(s, contracts, chain, c, head, answers, d);
      }
    }
  }

  /** Every pass of the round is a good one. */
  ghost predicate GoodRound(s: State, contracts: seq<Contract>, chain: seq<Log>, round: Round)
    decreases |contracts|
  {
    contracts == []
    || (var c := contracts[0];
        && GoodPass(s, c, round.head, round.answers(c.name))
        && GoodRound(IndexOne(s, c, chain, round.head, round.answers(c.name)), contracts[1..], chain, round))
  }

  ghost predicate GoodRounds(s: State, contracts: seq<Contract>, chain: seq<Log>, rounds: seq<Round>)
    decreases |rounds|
  {
    rounds == [] || (GoodRound(s, contracts, chain, rounds[0])
                     && GoodRounds(IndexAll(s, contracts, chain, rounds[0]), contracts, chain, rounds[1..]))
  }

  lemma {:induction false} RoundKeepsInv(s: State, contracts: seq<Contract>, todo: seq<Contract>, chain: seq<Log>, round: Round)
    requires World(contracts, chain) && Inv(s, contracts, chain) && (forall c :: c in todo ==> c in contracts)
    requires GoodRound(s, todo, chain, round)
    ensures Inv(IndexAll(s, todo, chain, round), contracts, chain)
    decreases |todo|
  {
    if todo != [] {
      GoodPassKeepsInv(s, contracts, chain, todo[0], round.head, round.answers(todo[0].name));
      RoundKeepsInv(IndexOne(s, todo[0], chain, round.head, round.answers(todo[0].name)), contracts, todo[1..], chain, round);
    }
  }

  lemma {:induction false} RoundsKeepInv(s: State, contracts: seq<Contract>, chain: seq<Log>, rounds: seq<Round>)
    requires World(contracts, chain) && Inv(s, contracts, chain) && GoodRounds(s, contracts, chain, rounds)
    ensures Inv(RunRounds(s, contracts, chain, rounds), contracts, chain)
    decreases |rounds|
  {
    if rounds != [] {
      RoundKeepsInv(s, contracts, contracts, chain, rounds[0]);
      RoundsKeepInv(IndexAll(s, contracts, chain, rounds[0]), contracts, chain, rounds[1..]);
    }
  }

  /**
   * Over every run of rounds whose passes are good, some tail of their chunks failing perhaps: whenever a contract's
   * checkpoint is B, the store holds exactly one row for each of its wanted, decodable logs after the genesis block
   * and up to B, and nothing that is not such a log.
   */
  lemma CheckpointIsComplete(contracts: seq<Contract>, chain: seq<Log>, rounds: seq<Round>, c: Contract)
    requires World(contracts, chain) && c in contracts
    requires GoodRounds(State(map[], map[]), contracts, chain, rounds)
    ensures var s := RunRounds(State(map[], map[]), contracts, chain, rounds);
            Sound(s.store, contracts, chain) && Complete(s.store, c, chain, CheckpointOf(s, c.name))
  {
    RoundsKeepInv(State(map[], map[]), contracts, chain, rounds);
  }

  // ---- Two passes that lose logs ----

  /** A pass with no answer still moves the checkpoint, by one block, over any log of that block. */
  lemma FailedPassSkipsABlock(s: State, contracts: seq<Contract>, chain: seq<Log>, c: Contract, head: int,
                              answers: int -> Answer, l: Log)
    requires World(contracts, chain) && Inv(s, contracts, chain) && c in contracts
    requires 0 <= head - (CheckpointOf(s, c.name) + 1) <= FIRST_RUN_MAX_SCAN
    requires NoneAnswered(CheckpointOf(s, c.name) + 1, head, answers)
    requires Relevant(c, chain, l) && l.block == CheckpointOf(s, c.name) + 1 && KeyOf(l) !in s.store
    ensures NewCheckpoint(s, c, head, answers) == CheckpointOf(s, c.name) + 1
    ensures !CompleteAfter(s, c, chain, head, answers)
  {
    var from := CheckpointOf(s, c.name) + 1;
    LastAnsweredExact(from, head, answers, from);
    PassExact(s, contracts, chain, c, head, answers);
    assert Skipped(s, c, chain, head, answers, l);
  }

  /** An unanswered chunk followed by an answered one: the checkpoint moves past every log of the first. */
  lemma GapBeforeAnswerIsSkipped(s: State, contracts: seq<Contract>, chain: seq<Log>, c: Contract, head: int,
                                 answers: int -> Answer, l: Log, later: int)
    requires World(contracts, chain) && Inv(s, contracts, chain) && c in contracts
    requires Relevant(c, chain, l) && KeyOf(l) !in s.store
    requires var from := ScanStart(s, c.name, head);
             from <= l.block < later <= head && !AnsweredAt(from, answers, l.block) && AnsweredAt(from, answers, later)
    ensures NewCheckpoint(s, c, head, answers) >= later
    ensures !CompleteAfter(s, c, chain, head, answers)
  {
    var from := ScanStart(s, c.name, head);
    LastAnsweredExact(from, head, answers, from);
    assert Scanned(from, head, answers, later);
    PassExact(s, contracts, chain, c, head, answers);
    assert Skipped(s, c, chain, head, answers, l);
  }
}
