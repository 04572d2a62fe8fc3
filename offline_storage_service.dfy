/** The queue of pending operations in `src/services/offlineStorageService.js`
    and `syncData`, which replays every queued operation against the remote
    document service and empties the queue.

    The IndexedDB store is an object of class `OfflineStorage` whose
    `pending` field lists the queued operations in key order, as `getAll`
    returns them. The remote service is not modelled: `syncData` records the
    calls it makes, and which of them throw is a parameter.

    The values an operation carries to the remote service (collection,
    document id, data, user id) are passed along unexamined, so they are of a
    type parameter `D`. The operation's `type` is the text it holds; a
    `type` that is not one of the three words, text or not, behaves the
    same. */
module OfflineStorageService {
  import opened Text

  /** A queued operation: its store key and the fields `syncData` reads. */
  datatype Operation<D> = Operation(id: int, kind: string, collection: D, docId: D, data: D)

  /** A call to the remote document service. */
  datatype Call<D> =
    | AddDocument(collection: D, data: D, userId: D)
    | UpdateDocument(collection: D, docId: D, data: D, userId: D)
    | DeleteDocument(collection: D, docId: D, userId: D)

  /** The call an operation makes: by its `type`, `add`, `update` or
      `delete`; any other type makes no call. */
  function CallOf<D>(op: Operation<D>, userId: D): Option<Call<D>>
  {
    if op.kind == "add" then Some(AddDocument(op.collection, op.data, userId))
    else if op.kind == "update" then Some(UpdateDocument(op.collection, op.docId, op.data, userId))
    else if op.kind == "delete" then Some(DeleteDocument(op.collection, op.docId, userId))
    else None
  }

  /** The calls replaying `ops` makes, in order. */
  function CallsOf<D>(ops: seq<Operation<D>>, userId: D): seq<Call<D>> {
    if ops == [] then []
    else
      var c := CallOf(ops[|ops| - 1], userId);
      CallsOf(ops[..|ops| - 1], userId) + (if c.Some? then [c.value] else [])
  }

  /** Whether the `k`-th operation replayed counts as synced: it made no
      call, or its call did not throw (`fails(k)` says whether it did). */
  predicate Synced<D>(op: Operation<D>, userId: D, k: nat, fails: nat -> bool) {
    CallOf(op, userId).None? || !fails(k)
  }

  /** The number of operations among `ops` that count as synced. */
  function SyncedCount<D>(ops: seq<Operation<D>>, userId: D, fails: nat -> bool): (n: nat)
    ensures n <= |ops|
  {
    if ops == [] then 0
    else SyncedCount(ops[..|ops| - 1], userId, fails)
         + (if Synced(ops[|ops| - 1], userId, |ops| - 1, fails) then 1 else 0)
  }

  /** What `syncData` returns and records, apart from `restantes`. */
  datatype Report<D> = Report(synced: nat, removedFailed: nat, calls: seq<Call<D>>)

  /** The report after one more operation, given the call it made (if
      any) and whether that call threw. */
  function Step<D>(r: Report<D>, call: Option<Call<D>>, threw: bool): Report<D> {
    Report(if threw then r.synced else r.synced + 1,
           if threw then r.removedFailed + 1 else r.removedFailed,
           r.calls + (if call.Some? then [call.value] else []))
  }

  /** The report of replaying `ops` in order from an empty one. */
  function Replay<D>(ops: seq<Operation<D>>, userId: D, fails: nat -> bool): (r: Report<D>)
    ensures r.synced + r.removedFailed == |ops|
  {
    if ops == [] then Report(0, 0, [])
    else
      var last := ops[|ops| - 1];
      Step(Replay(ops[..|ops| - 1], userId, fails), CallOf(last, userId), !Synced(last, userId, |ops| - 1, fails))
  }

  /** The replay counts as synced exactly the operations that are synced,
      and makes the calls of the operations in order. */
  lemma {:induction false} ReplaySpec<D>(ops: seq<Operation<D>>, userId: D, fails: nat -> bool)
    ensures Replay(ops, userId, fails).synced == SyncedCount(ops, userId, fails)
    ensures Replay(ops, userId, fails).calls == CallsOf(ops, userId)
  {
    if ops != [] {
      ReplaySpec(ops[..|ops| - 1], userId, fails);
    }
  }

  /** `ops` without the entries whose key is `id`. */
  function Without<D>(ops: seq<Operation<D>>, id: int): (r: seq<Operation<D>>)
    ensures |r| <= |ops|
  {
    if ops == [] then []
    else (if ops[0].id == id then [] else [ops[0]]) + Without(ops[1..], id)
  }

  /** Keys strictly increasing, as the store lists them. */
  predicate KeyOrdered<D>(ops: seq<Operation<D>>) {
    forall i, j :: 0 <= i < j < |ops| ==> ops[i].id < ops[j].id
  }

  /** Removing a key the queue does not hold changes nothing. */
  lemma {:induction false} WithoutAbsent<D>(ops: seq<Operation<D>>, id: int)
    requires forall k :: 0 <= k < |ops| ==> ops[k].id > id
    ensures Without(ops, id) == ops
  {
    if ops != [] {
      WithoutAbsent(ops[1..], id);
    }
  }

  class OfflineStorage<D> {
    /** The `pendingOperations` store, in key order. */
    var pending: seq<Operation<D>>
    /** The next key the store's auto-increment hands out. */
    var nextId: int

    predicate Valid()
      reads this
    {
      KeyOrdered(pending) && forall k :: 0 <= k < |pending| ==> pending[k].id < nextId
    }

    constructor ()
      ensures pending == [] && nextId == 1 && Valid()
    {
      pending := [];
      nextId := 1;
    }

    /** `getPendingOperations()`. */
    method GetPendingOperations() returns (ops: seq<Operation<D>>)
      ensures ops == pending
    {
      ops := pending;
    }

    /** `addPendingOperation(operation)`: the store appends the operation
      under a fresh key and returns that key. */
    method AddPendingOperation(kind: string, collection: D, docId: D, data: D) returns (id: int)
      requires Valid()
      modifies this
      ensures Valid()
      ensures id == old(nextId) && nextId == id + 1
      ensures pending == old(pending) + [Operation(id, kind, collection, docId, data)]
    {
      id := nextId;
      pending := pending + [Operation(id, kind, collection, docId, data)];
      nextId := nextId + 1;
    }

    /** `removePendingOperation(id)`. */
    method RemovePendingOperation(id: int)
      modifies this
      ensures pending == Without(old(pending), id) && nextId == old(nextId)
    {
      pending := Without(pending, id);
    }

    /** The body of the `syncData` loop for the `k`-th operation: make its
      call, which throws when `fails(k)`, and remove it from the queue
      either way. */
    method ReplayOperation(op: Operation<D>, k: nat, userId: D, fails: nat -> bool)
      returns (call: Option<Call<D>>, threw: bool)
      modifies this
      ensures pending == Without(old(pending), op.id) && nextId == old(nextId)
      ensures call == CallOf(op, userId) && threw == !Synced(op, userId, k, fails)
    {
      call := CallOf(op, userId);
      threw := call.Some? && fails(k);
      RemovePendingOperation(op.id);
    }

    /** `syncData(firestoreService, userId)`: replay every queued operation
      in order, counting those whose call throws, and remove each from the
      queue either way. Returns the counts, the `restantes` count (always 0)
      and the calls made. */
    method SyncData(userId: D, fails: nat -> bool)
      returns (synced: nat, removedFailed: nat, restantes: nat, calls: seq<Call<D>>)
      requires Valid()
      modifies this
      ensures Valid() && pending == [] && nextId == old(nextId)
      ensures synced + removedFailed == |old(pending)| && restantes == 0
      ensures Report(synced, removedFailed, calls) == Replay(old(pending), userId, fails)
    {
      var operations := GetPendingOperations();
      synced, removedFailed, calls := 0, 0, [];
      var i := 0;
      while i < |operations|
        invariant 0 <= i <= |operations| && KeyOrdered(operations)
        invariant pending == operations[i..] && nextId == old(nextId)
        invariant Report(synced, removedFailed, calls) == Replay(operations[..i], userId, fails)
      {
        var op := operations[i];
        ReplayStep(operations, i, userId, fails);
        var call, threw := ReplayOperation(op, i, userId, fails);
        calls := calls + (if call.Some? then [call.value] else []);
        if threw {
          removedFailed := removedFailed + 1;
        } else {
          synced := synced + 1;
        }
        i := i + 1;
      }
      assert operations[..i] == operations;
      restantes := 0;
    }
  }

  /** One more operation replayed: the report takes one step, and removing
      its key from the queue leaves the operations after it. */
  lemma ReplayStep<D>(ops: seq<Operation<D>>, i: nat, userId: D, fails: nat -> bool)
    requires i < |ops| && KeyOrdered(ops)
    ensures Replay(ops[..i + 1], userId, fails)
            == Step(Replay(ops[..i], userId, fails), CallOf(ops[i], userId), !Synced(ops[i], userId, i, fails))
    ensures Without(ops[i..], ops[i].id) == ops[i + 1..]
  {
    assert ops[..i + 1][..i] == ops[..i];
    WithoutAbsent(ops[i + 1..], ops[i].id);
  }

  /** When no call throws, every operation counts as synced; an operation
      of an unknown type makes no call and counts as synced whatever the
      remote service would have done. */
  lemma {:induction false} SyncedWithoutFailures<D>(ops: seq<Operation<D>>, userId: D, fails: nat -> bool)
    ensures (forall k: nat :: k < |ops| ==> !fails(k)) ==> SyncedCount(ops, userId, fails) == |ops|
    ensures (forall k :: 0 <= k < |ops| ==> CallOf(ops[k], userId).None?) ==>
            SyncedCount(ops, userId, fails) == |ops| && CallsOf(ops, userId) == []
  {
    if ops != [] {
      var init := ops[..|ops| - 1];
      SyncedWithoutFailures(init, userId, fails);
      assert forall k :: 0 <= k < |init| ==> init[k] == ops[k];
    }
  }

  /** One call per operation of a known type, and no more calls than
      operations. */
  lemma {:induction false} CallsCount<D>(ops: seq<Operation<D>>, userId: D)
    ensures |CallsOf(ops, userId)| <= |ops|
    ensures (forall k :: 0 <= k < |ops| ==> CallOf(ops[k], userId).Some?) ==> |CallsOf(ops, userId)| == |ops|
  {
    if ops != [] {
      var init := ops[..|ops| - 1];
      CallsCount(init, userId);
      assert forall k :: 0 <= k < |init| ==> init[k] == ops[k];
    }
  }

  /** A queue of one operation: an `add` calls `addDocument` with the
      queued collection and data, an `update` or `delete` passes the queued
      document id as well, and any other type calls nothing; the operation
      counts as failed exactly when it made a call and that call threw. */
  lemma SingleOperationReplayed<D>(op: Operation<D>, userId: D, fails: nat -> bool)
    ensures op.kind == "add" ==> CallsOf([op], userId) == [AddDocument(op.collection, op.data, userId)]
    ensures op.kind == "update" ==> CallsOf([op], userId) == [UpdateDocument(op.collection, op.docId, op.data, userId)]
    ensures op.kind == "delete" ==> CallsOf([op], userId) == [DeleteDocument(op.collection, op.docId, userId)]
    ensures op.kind !in ["add", "update", "delete"] ==> CallsOf([op], userId) == []
    ensures SyncedCount([op], userId, fails) == 0 <==> CallsOf([op], userId) != [] && fails(0)
  {
    assert [op][..0] == [];
  }
}
