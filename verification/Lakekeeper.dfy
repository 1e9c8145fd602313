/** Permission checks sent to LakeKeeper's batch-check endpoint, and the chunking of
    a long check list into several requests. */
module Lakekeeper {
  import opened Sequences

  datatype Action = GetMetadata | ReadData | Select | ListEverything | GetConfig

  datatype Check =
    | WarehouseCheck(warehouse: string, user: string, action: Action)
    | NamespaceCheck(warehouse: string, namespace: seq<string>, user: string, action: Action)
    | TableCheck(warehouse: string, namespace: seq<string>, name: string, user: string, action: Action)
    | ViewCheck(warehouse: string, namespace: seq<string>, name: string, user: string, action: Action)

  /** One request: the `allowed` flags of the reply, in order. A request that fails, or
      whose reply has no `results`, contributes no element, exactly like `[]`. */
  type Sender = seq<Check> -> seq<bool>

  /** `results[i].allowed == true`; an index past the end is undefined in Rego. */
  predicate At(results: seq<bool>, i: nat) {
    i < |results| && results[i]
  }

  function MaxSize(raw: int): (size: nat)
    ensures size >= 1
  {
    if raw > 1 then raw else 1
  }

  function NumBatches(count: nat, size: nat): nat
    requires size >= 1
  {
    (count + size - 1) / size
  }

  /** `array.slice`, which clamps both ends to the array. */
  function Slice<T>(s: seq<T>, start: nat, stop: nat): seq<T>
    requires start <= stop
  {
    if stop <= |s| then s[start..stop] else if start <= |s| then s[start..] else []
  }

  function Chunk(checks: seq<Check>, size: nat, b: nat): seq<Check>
    requires size >= 1
  {
    Slice(checks, b * size, b * size + size)
  }

  function ResultsFrom(send: Sender, checks: seq<Check>, size: nat, b: nat): seq<bool>
    requires size >= 1
    decreases NumBatches(|checks|, size) - b
  {
    if b >= NumBatches(|checks|, size) then []
    else send(Chunk(checks, size, b)) + ResultsFrom(send, checks, size, b + 1)
  }

  function BatchCheckResults(send: Sender, rawMax: int, checks: seq<Check>): seq<bool> {
    ResultsFrom(send, checks, MaxSize(rawMax), 0)
  }

  // --- What the caller wants: one answer per check, in order ---

  function Pointwise(answer: Check -> bool, checks: seq<Check>): (r: seq<bool>)
    ensures |r| == |checks|
    ensures forall i | 0 <= i < |checks| :: r[i] == answer(checks[i])
  {
    seq(|checks|, i requires 0 <= i < |checks| => answer(checks[i]))
  }

  lemma {:induction false} PointwiseAppend(answer: Check -> bool, a: seq<Check>, b: seq<Check>)
    ensures Pointwise(answer, a + b) == Pointwise(answer, a) + Pointwise(answer, b)
  {
  }

  lemma MulMonotone(a: nat, b: nat, size: nat)
    requires a <= b
    ensures a * size <= b * size
  {
    assert b * size == a * size + (b - a) * size;
  }

  /** Batch b exists exactly when it starts inside the list. */
  lemma BatchStart(count: nat, size: nat, b: nat)
    requires size >= 1
    ensures b < NumBatches(count, size) <==> b * size < count
  {
    BatchesBound(count, size);
    var n := NumBatches(count, size);
    if b < n {
      MulMonotone(b + 1, n, size);
      assert (b + 1) * size == b * size + size;
    } else {
      MulMonotone(n, b, size);
    }
  }

  /** The batches are just enough to hold the checks. */
  lemma BatchesBound(count: nat, size: nat)
    requires size >= 1
    ensures count <= NumBatches(count, size) * size < count + size
  {
    var total := count + size - 1;
    assert total == (total / size) * size + total % size;
  }

  /** The checks not yet covered before batch b. */
  function Rest(checks: seq<Check>, size: nat, b: nat): seq<Check>
    requires size >= 1
  {
    if b * size <= |checks| then checks[b * size..] else []
  }

  lemma {:induction false} RestStep(checks: seq<Check>, size: nat, b: nat)
    requires size >= 1 && b < NumBatches(|checks|, size)
    ensures Rest(checks, size, b) == Chunk(checks, size, b) + Rest(checks, size, b + 1)
    ensures 1 <= |Chunk(checks, size, b)| <= size
  {
    BatchStart(|checks|, size, b);
    assert (b + 1) * size == b * size + size;
  }

  ghost predicate ChunksAnswered(send: Sender, answer: Check -> bool, checks: seq<Check>, size: nat, b: nat)
    requires size >= 1
  {
    forall k | b <= k < NumBatches(|checks|, size) ::
      send(Chunk(checks, size, k)) == Pointwise(answer, Chunk(checks, size, k))
  }

  lemma {:induction false} AlignedFrom(send: Sender, answer: Check -> bool, checks: seq<Check>, size: nat, b: nat)
    requires size >= 1
    requires ChunksAnswered(send, answer, checks, size, b)
    ensures ResultsFrom(send, checks, size, b) == Pointwise(answer, Rest(checks, size, b))
    decreases NumBatches(|checks|, size) - b
  {
    if b < NumBatches(|checks|, size) {
      AlignedFrom(send, answer, checks, size, b + 1);
      RestStep(checks, size, b);
      PointwiseAppend(answer, Chunk(checks, size, b), Rest(checks, size, b + 1));
    } else {
      BatchStart(|checks|, size, b);
    }
  }

  ghost predicate NeverLonger(send: Sender, checks: seq<Check>, size: nat)
    requires size >= 1
  {
    forall k | 0 <= k < NumBatches(|checks|, size) ::
      |send(Chunk(checks, size, k))| <= |Chunk(checks, size, k)|
  }

  lemma {:induction false} LengthFrom(send: Sender, checks: seq<Check>, size: nat, b: nat)
    requires size >= 1 && NeverLonger(send, checks, size)
    ensures |ResultsFrom(send, checks, size, b)| <= |Rest(checks, size, b)|
    decreases NumBatches(|checks|, size) - b
  {
    if b < NumBatches(|checks|, size) {
      LengthFrom(send, checks, size, b + 1);
      RestStep(checks, size, b);
    }
  }

  lemma {:induction false} AnsweredFrom(send: Sender, answer: Check -> bool, checks: seq<Check>, size: nat, b: nat)
    requires size >= 1 && NeverLonger(send, checks, size)
    requires ResultsFrom(send, checks, size, b) == Pointwise(answer, Rest(checks, size, b))
    ensures ChunksAnswered(send, answer, checks, size, b)
    decreases NumBatches(|checks|, size) - b
  {
    if b < NumBatches(|checks|, size) {
      var chunk, rest := Chunk(checks, size, b), Rest(checks, size, b + 1);
      var head, tail := send(chunk), ResultsFrom(send, checks, size, b + 1);
      RestStep(checks, size, b);
      LengthFrom(send, checks, size, b + 1);
      PointwiseAppend(answer, chunk, rest);
      assert head + tail == Pointwise(answer, chunk) + Pointwise(answer, rest);
      assert head == (head + tail)[..|chunk|];
      assert tail == (head + tail)[|chunk|..];
      AnsweredFrom(send, answer, checks, size, b + 1);
    }
  }

  /** Chunking is invisible exactly when every request is answered in full. This holds
      for every check list and every configured size, odd sizes and sizes below one
      included, provided no reply is longer than its request. */
  lemma {:induction false} ChunkingAligned(send: Sender, answer: Check -> bool, rawMax: int, checks: seq<Check>)
    requires NeverLonger(send, checks, MaxSize(rawMax))
    ensures BatchCheckResults(send, rawMax, checks) == Pointwise(answer, checks)
            <==> ChunksAnswered(send, answer, checks, MaxSize(rawMax), 0)
  {
    var size := MaxSize(rawMax);
    assert Rest(checks, size, 0) == checks;
    if ChunksAnswered(send, answer, checks, size, 0) {
      AlignedFrom(send, answer, checks, size, 0);
    }
    if BatchCheckResults(send, rawMax, checks) == Pointwise(answer, checks) {
      AnsweredFrom(send, answer, checks, size, 0);
    }
  }

  /** Every request stays within the limit, is not empty, and together the requests
      carry exactly the checks, in order. */
  function Requests(checks: seq<Check>, size: nat, b: nat): seq<seq<Check>>
    requires size >= 1
    decreases NumBatches(|checks|, size) - b
  {
    if b >= NumBatches(|checks|, size) then []
    else [Chunk(checks, size, b)] + Requests(checks, size, b + 1)
  }

  lemma {:induction false} RequestsCover(checks: seq<Check>, size: nat, b: nat)
    requires size >= 1
    ensures Flatten(Requests(checks, size, b)) == Rest(checks, size, b)
    ensures forall k | 0 <= k < |Requests(checks, size, b)| :: 1 <= |Requests(checks, size, b)[k]| <= size
    decreases NumBatches(|checks|, size) - b
  {
    if b < NumBatches(|checks|, size) {
      RequestsCover(checks, size, b + 1);
      RestStep(checks, size, b);
    } else {
      BatchStart(|checks|, size, b);
    }
  }

  function Replies(send: Sender, requests: seq<seq<Check>>): seq<seq<bool>> {
    if requests == [] then [] else [send(requests[0])] + Replies(send, requests[1..])
  }

  lemma {:induction false} RepliesJoined(send: Sender, checks: seq<Check>, size: nat, b: nat)
    requires size >= 1
    ensures ResultsFrom(send, checks, size, b) == Flatten(Replies(send, Requests(checks, size, b)))
    decreases NumBatches(|checks|, size) - b
  {
    if b < NumBatches(|checks|, size) {
      var requests, later := Requests(checks, size, b), Requests(checks, size, b + 1);
      assert requests[1..] == later;
      RepliesJoined(send, checks, size, b + 1);
    }
  }

  lemma {:induction false} RequestAt(checks: seq<Check>, size: nat, b: nat, k: nat)
    requires size >= 1 && k < |Requests(checks, size, b)|
    ensures |Requests(checks, size, b)| == NumBatches(|checks|, size) - b
    ensures Requests(checks, size, b)[k] == Chunk(checks, size, b + k)
    decreases k
  {
    CountFrom(checks, size, b);
    if k > 0 {
      RequestAt(checks, size, b + 1, k - 1);
    }
  }

  lemma {:induction false} CountFrom(checks: seq<Check>, size: nat, b: nat)
    requires size >= 1 && b <= NumBatches(|checks|, size)
    ensures |Requests(checks, size, b)| == NumBatches(|checks|, size) - b
    decreases NumBatches(|checks|, size) - b
  {
    if b < NumBatches(|checks|, size) {
      CountFrom(checks, size, b + 1);
    }
  }

  /** What is sent for a configured limit: the checks in order, cut into requests of exactly
      the limit, or of one check each below it, with a shorter one at most at the end; the
      results are the replies one after the other. */
  lemma {:induction false} RequestsExact(send: Sender, raw: int, checks: seq<Check>) returns (requests: seq<seq<Check>>)
    ensures BatchCheckResults(send, raw, checks) == Flatten(Replies(send, requests))
    ensures Flatten(requests) == checks
    ensures forall k | 0 <= k < |requests| :: 1 <= |requests[k]| <= (if raw > 1 then raw else 1)
    ensures forall k | 0 <= k < |requests| - 1 :: |requests[k]| == if raw > 1 then raw else 1
  {
    var size := MaxSize(raw);
    requests := Requests(checks, size, 0);
    RepliesJoined(send, checks, size, 0);
    RequestsCover(checks, size, 0);
    assert Rest(checks, size, 0) == checks;
    CountFrom(checks, size, 0);
    forall k | 0 <= k < |requests| - 1
      ensures |requests[k]| == size
    {
      RequestAt(checks, size, 0, k);
      BatchStart(|checks|, size, k + 1);
      assert (k + 1) * size == k * size + size;
    }
  }

  /** A lost chunk shifts the results of the chunks after it: with size 1, losing the
      first of two requests reports the second check's answer at position 0. */
  lemma LostChunkShifts(first: Check, second: Check)
    requires first != second
    ensures var send: Sender := (cs: seq<Check>) => if cs == [second] then [true] else [];
            && BatchCheckResults(send, 1, [first, second]) == [true]
            && At(BatchCheckResults(send, 1, [first, second]), 0)
  {
    var send: Sender := (cs: seq<Check>) => if cs == [second] then [true] else [];
    var checks := [first, second];
    assert Chunk(checks, 1, 0) == [first];
    assert Chunk(checks, 1, 1) == [second];
    assert NumBatches(2, 1) == 2;
    assert ResultsFrom(send, checks, 1, 2) == [];
    assert ResultsFrom(send, checks, 1, 1) == [true];
  }
}
