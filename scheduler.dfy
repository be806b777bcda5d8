/**
 * One pass of the batching loop, as a function of the session order at the
 * start of the pass, the queues, and the elapsed time read at each step;
 * and where the replies of a dispatched batch go.
 */
module Scheduler {
  import opened Base

  /** The per-session queues (`message_queue`), by session id. */
  type Queues = map<SessionId, seq<Request>>

  /** Every queued request carries the id of the queue it sits in. */
  predicate QueuesTagged(queues: Queues)
  {
    forall s, r :: s in queues && r in queues[s] ==> r.sessionId == s
  }

  predicate Covers(snapshot: seq<SessionId>, queues: Queues)
  {
    forall s :: s in snapshot ==> s in queues
  }

  /** s occurs in snapshot at or after position idx. */
  predicate InSuffix(snapshot: seq<SessionId>, idx: nat, s: SessionId)
  {
    exists k :: idx <= k < |snapshot| && snapshot[k] == s
  }

  /**
   * The test made after each step, as written: more than BATCHING_SIZE
   * items, or the elapsed time in seconds above BATCHING_TIMEOUT_MS, or the
   * last session of the pass.
   */
  predicate ShouldFlush(cfg: Config, batchLen: nat, elapsed: real, idx: nat, qLen: nat)
  {
    batchLen > cfg.batchingSize || elapsed > cfg.batchingTimeoutMs as real || idx == qLen - 1
  }

  /**
   * The timer test compares seconds with BATCHING_TIMEOUT_MS: a batch still
   * under BATCHING_SIZE + 1 items, away from the last session, is not
   * flushed although BATCHING_TIMEOUT_MS milliseconds have passed, for as
   * long as fewer than BATCHING_TIMEOUT_MS seconds have.
   */
  lemma TimerCountsSeconds(cfg: Config, batchLen: nat, elapsed: real, idx: nat, qLen: nat)
    requires batchLen <= cfg.batchingSize && idx + 1 != qLen
    requires elapsed * 1000.0 > cfg.batchingTimeoutMs as real
    ensures !ShouldFlush(cfg, batchLen, elapsed, idx, qLen) <==> elapsed <= cfg.batchingTimeoutMs as real
  {
  }

  /** The batches a pass dispatches, in order, and the queues it leaves. */
  datatype Pass = Pass(batches: seq<seq<Request>>, queues: Queues)

  /**
   * The pass from step idx on, with batch accumulated so far: the session at
   * idx gives up the head of its queue if it has one, then the batch is
   * dispatched (when non-empty) and restarted if the flush test holds.
   */
  function Scan(cfg: Config, snapshot: seq<SessionId>, queues: Queues, elapsed: seq<real>, idx: nat, batch: seq<Request>)
    : (r: Pass)
    requires idx <= |snapshot| == |elapsed| && Covers(snapshot, queues)
    ensures r.queues.Keys == queues.Keys
    decreases |snapshot| - idx
  {
    if idx == |snapshot| then Pass([], queues)
    else
      var sid := snapshot[idx];
      var q := queues[sid];
      var batch' := if q != [] then batch + [q[0]] else batch;
      var queues' := if q != [] then queues[sid := q[1..]] else queues;
      if ShouldFlush(cfg, |batch'|, elapsed[idx], idx, |snapshot|) then
        var rest := Scan(cfg, snapshot, queues', elapsed, idx + 1, []);
        Pass((if batch' != [] then [batch'] else []) + rest.batches, rest.queues)
      else
        Scan(cfg, snapshot, queues', elapsed, idx + 1, batch')
  }

  /** A whole pass: it starts with an empty batch, since the previous pass ended with a flush. */
  function Cycle(cfg: Config, snapshot: seq<SessionId>, queues: Queues, elapsed: seq<real>): (r: Pass)
    requires |snapshot| == |elapsed| && Covers(snapshot, queues)
    ensures r.queues.Keys == queues.Keys
  {
    Scan(cfg, snapshot, queues, elapsed, 0, [])
  }

  function Flatten(bs: seq<seq<Request>>): seq<Request>
  {
    if bs == [] then [] else bs[0] + Flatten(bs[1..])
  }

  /** The heads of the non-empty queues of snapshot[idx..], in snapshot order. */
  function Heads(snapshot: seq<SessionId>, queues: Queues, idx: nat): seq<Request>
    requires idx <= |snapshot| && Covers(snapshot, queues)
    decreases |snapshot| - idx
  {
    if idx == |snapshot| then []
    else
      var q := queues[snapshot[idx]];
      (if q != [] then [q[0]] else []) + Heads(snapshot, queues, idx + 1)
  }

  /** Every queue of a session of snapshot[idx..] without its head; the other queues as they are. */
  function PopHeads(snapshot: seq<SessionId>, queues: Queues, idx: nat): Queues
  {
    map s | s in queues :: if InSuffix(snapshot, idx, s) && queues[s] != [] then queues[s][1..] else queues[s]
  }

  /** The requests of session s, in order. */
  function ChunksOf(s: SessionId, rs: seq<Request>): seq<Request>
  {
    if rs == [] then []
    else (if rs[0].sessionId == s then [rs[0]] else []) + ChunksOf(s, rs[1..])
  }

  lemma {:induction false} FlattenAppend(a: seq<seq<Request>>, b: seq<seq<Request>>)
    ensures Flatten(a + b) == Flatten(a) + Flatten(b)
  {
    if a == [] {
      assert a + b == b;
    } else {
      assert (a + b)[1..] == a[1..] + b;
      FlattenAppend(a[1..], b);
    }
  }

  /** Heads past position j do not see a change to a queue that occurs only before j. */
  lemma {:induction false} HeadsFrame(snapshot: seq<SessionId>, queues: Queues, sid: SessionId, q: seq<Request>, j: nat)
    requires j <= |snapshot| && Covers(snapshot, queues)
    requires forall k :: j <= k < |snapshot| ==> snapshot[k] != sid
    ensures Covers(snapshot, queues[sid := q])
    ensures Heads(snapshot, queues[sid := q], j) == Heads(snapshot, queues, j)
    decreases |snapshot| - j
  {
    var queues' := queues[sid := q];
    assert Covers(snapshot, queues');
    if j < |snapshot| {
      HeadsFrame(snapshot, queues, sid, q, j + 1);
      var here := queues[snapshot[j]];
      assert queues'[snapshot[j]] == here;
      assert Heads(snapshot, queues', j) == (if here != [] then [here[0]] else []) + Heads(snapshot, queues', j + 1);
      assert Heads(snapshot, queues, j) == (if here != [] then [here[0]] else []) + Heads(snapshot, queues, j + 1);
    }
  }

  /**
   * From step idx on, a pass dispatches exactly the batch accumulated so far
   * followed by the head of every non-empty queue it still visits, in
   * snapshot order.
   */
  lemma {:induction false} ScanTakesHeads(
    cfg: Config, snapshot: seq<SessionId>, queues: Queues, elapsed: seq<real>, idx: nat, batch: seq<Request>)
    requires idx <= |snapshot| == |elapsed| && Covers(snapshot, queues) && Distinct(snapshot)
    requires batch == [] || idx < |snapshot|
    ensures Flatten(Scan(cfg, snapshot, queues, elapsed, idx, batch).batches) == batch + Heads(snapshot, queues, idx)
    decreases |snapshot| - idx
  {
    if idx < |snapshot| {
      var sid := snapshot[idx];
      var q := queues[sid];
      var batch' := if q != [] then batch + [q[0]] else batch;
      var queues' := if q != [] then queues[sid := q[1..]] else queues;
      HeadsStep(snapshot, queues, idx);
      assert batch + Heads(snapshot, queues, idx) == batch' + Heads(snapshot, queues', idx + 1);
      if ShouldFlush(cfg, |batch'|, elapsed[idx], idx, |snapshot|) {
        ScanTakesHeads(cfg, snapshot, queues', elapsed, idx + 1, []);
        FlushedBatches(cfg, snapshot, queues, elapsed, idx, batch);
      } else {
        ScanTakesHeads(cfg, snapshot, queues', elapsed, idx + 1, batch');
      }
    }
  }

  /** The head step of Heads: the head of the queue at idx, then the heads of the popped queues past idx. */
  lemma HeadsStep(snapshot: seq<SessionId>, queues: Queues, idx: nat)
    requires idx < |snapshot| && Covers(snapshot, queues) && Distinct(snapshot)
    ensures var q := queues[snapshot[idx]];
      var queues' := if q != [] then queues[snapshot[idx] := q[1..]] else queues;
      && Covers(snapshot, queues')
      && Heads(snapshot, queues, idx) == (if q != [] then [q[0]] else []) + Heads(snapshot, queues', idx + 1)
  {
    var sid := snapshot[idx];
    var q := queues[sid];
    if q != [] {
      HeadsFrame(snapshot, queues, sid, q[1..], idx + 1);
    }
  }

  /** When step idx flushes, the pass's batches are the flushed batch (if any) and then those of the rest. */
  lemma FlushedBatches(
    cfg: Config, snapshot: seq<SessionId>, queues: Queues, elapsed: seq<real>, idx: nat, batch: seq<Request>)
    requires idx < |snapshot| == |elapsed| && Covers(snapshot, queues)
    requires var q := queues[snapshot[idx]];
      ShouldFlush(cfg, |if q != [] then batch + [q[0]] else batch|, elapsed[idx], idx, |snapshot|)
    ensures var q := queues[snapshot[idx]];
      var batch' := if q != [] then batch + [q[0]] else batch;
      var queues' := if q != [] then queues[snapshot[idx] := q[1..]] else queues;
      Flatten(Scan(cfg, snapshot, queues, elapsed, idx, batch).batches) ==
        batch' + Flatten(Scan(cfg, snapshot, queues', elapsed, idx + 1, []).batches)
  {
    var q := queues[snapshot[idx]];
    var batch' := if q != [] then batch + [q[0]] else batch;
    var queues' := if q != [] then queues[snapshot[idx] := q[1..]] else queues;
    var rest := Scan(cfg, snapshot, queues', elapsed, idx + 1, []);
    var mine := if batch' != [] then [batch'] else [];
    FlattenAppend(mine, rest.batches);
    assert Flatten(mine) == batch' by {
      if batch' != [] {
        assert Flatten(mine) == batch' + Flatten([]);
      }
    }
  }

  /** From step idx on, a pass leaves each queue it visits without its head and every other queue as it was. */
  lemma {:induction false} ScanPopsHeads(
    cfg: Config, snapshot: seq<SessionId>, queues: Queues, elapsed: seq<real>, idx: nat, batch: seq<Request>)
    requires idx <= |snapshot| == |elapsed| && Covers(snapshot, queues) && Distinct(snapshot)
    ensures Scan(cfg, snapshot, queues, elapsed, idx, batch).queues == PopHeads(snapshot, queues, idx)
    decreases |snapshot| - idx
  {
    if idx == |snapshot| {
      assert PopHeads(snapshot, queues, idx) == queues;
    } else {
      var sid := snapshot[idx];
      var q := queues[sid];
      var batch' := if q != [] then batch + [q[0]] else batch;
      var queues' := if q != [] then queues[sid := q[1..]] else queues;
      PopHeadsStep(snapshot, queues, idx);
      if ShouldFlush(cfg, |batch'|, elapsed[idx], idx, |snapshot|) {
        ScanPopsHeads(cfg, snapshot, queues', elapsed, idx + 1, []);
      } else {
        ScanPopsHeads(cfg, snapshot, queues', elapsed, idx + 1, batch');
      }
    }
  }

  /** Popping the head at idx and then the heads past idx pops the heads from idx on. */
  lemma PopHeadsStep(snapshot: seq<SessionId>, queues: Queues, idx: nat)
    requires idx < |snapshot| && Covers(snapshot, queues) && Distinct(snapshot)
    ensures var q := queues[snapshot[idx]];
      PopHeads(snapshot, if q != [] then queues[snapshot[idx] := q[1..]] else queues, idx + 1) ==
      PopHeads(snapshot, queues, idx)
  {
    var sid := snapshot[idx];
    assert !InSuffix(snapshot, idx + 1, sid);
    forall s | s in queues
      ensures InSuffix(snapshot, idx, s) <==> s == sid || InSuffix(snapshot, idx + 1, s)
    {
      if InSuffix(snapshot, idx, s) && s != sid {
        var k :| idx <= k < |snapshot| && snapshot[k] == s;
        assert k != idx;
      }
    }
  }

  /** A pass never dispatches an empty batch, nor one of more than BATCHING_SIZE + 1 items. */
  lemma {:induction false} ScanBatchBound(
    cfg: Config, snapshot: seq<SessionId>, queues: Queues, elapsed: seq<real>, idx: nat, batch: seq<Request>)
    requires idx <= |snapshot| == |elapsed| && Covers(snapshot, queues)
    requires |batch| <= cfg.batchingSize
    ensures forall b :: b in Scan(cfg, snapshot, queues, elapsed, idx, batch).batches ==>
      0 < |b| <= cfg.batchingSize + 1
    decreases |snapshot| - idx
  {
    if idx < |snapshot| {
      var sid := snapshot[idx];
      var q := queues[sid];
      var batch' := if q != [] then batch + [q[0]] else batch;
      var queues' := if q != [] then queues[sid := q[1..]] else queues;
      if ShouldFlush(cfg, |batch'|, elapsed[idx], idx, |snapshot|) {
        ScanBatchBound(cfg, snapshot, queues', elapsed, idx + 1, []);
      } else {
        ScanBatchBound(cfg, snapshot, queues', elapsed, idx + 1, batch');
      }
    }
  }

  /** The heads taken from snapshot[idx..] belong to distinct sessions, all of them in snapshot[idx..]. */
  lemma {:induction false} HeadsDistinct(snapshot: seq<SessionId>, queues: Queues, idx: nat)
    requires idx <= |snapshot| && Covers(snapshot, queues) && Distinct(snapshot) && QueuesTagged(queues)
    ensures forall r :: r in Heads(snapshot, queues, idx) ==> InSuffix(snapshot, idx + 1, r.sessionId) || (idx < |snapshot| && r.sessionId == snapshot[idx])
    ensures DistinctSessions(Heads(snapshot, queues, idx))
    decreases |snapshot| - idx
  {
    if idx < |snapshot| {
      HeadsDistinct(snapshot, queues, idx + 1);
      var sid := snapshot[idx];
      var q := queues[sid];
      var rest := Heads(snapshot, queues, idx + 1);
      forall r | r in rest ensures r.sessionId != sid && InSuffix(snapshot, idx + 1, r.sessionId) {
        if idx + 1 < |snapshot| && r.sessionId == snapshot[idx + 1] {
          assert InSuffix(snapshot, idx + 1, r.sessionId);
        } else {
          assert InSuffix(snapshot, idx + 2, r.sessionId);
        }
        var k :| idx + 1 <= k < |snapshot| && snapshot[k] == r.sessionId;
      }
      if q != [] {
        assert q[0] in queues[sid];
        var h := Heads(snapshot, queues, idx);
        assert h == [q[0]] + rest;
        forall i, j | 0 <= i < j < |h| ensures h[i].sessionId != h[j].sessionId {
          if i == 0 {
            assert h[j] in rest;
          } else {
            assert h[i] == rest[i - 1] && h[j] == rest[j - 1];
          }
        }
      }
    }
  }

  lemma {:induction false} FlattenDistinct(bs: seq<seq<Request>>)
    requires DistinctSessions(Flatten(bs))
    ensures forall b :: b in bs ==> DistinctSessions(b)
  {
    if bs != [] {
      var f := Flatten(bs);
      assert f == bs[0] + Flatten(bs[1..]);
      assert forall i :: 0 <= i < |bs[0]| ==> f[i] == bs[0][i];
      assert forall i :: 0 <= i < |Flatten(bs[1..])| ==> f[|bs[0]| + i] == Flatten(bs[1..])[i];
      FlattenDistinct(bs[1..]);
    }
  }

  /** Session s has at most one request among the heads, and it is the head of its own queue. */
  lemma {:induction false} HeadsOfSession(snapshot: seq<SessionId>, queues: Queues, idx: nat, s: SessionId)
    requires idx <= |snapshot| && Covers(snapshot, queues) && Distinct(snapshot) && QueuesTagged(queues)
    requires s in queues
    ensures ChunksOf(s, Heads(snapshot, queues, idx)) ==
      if InSuffix(snapshot, idx, s) && queues[s] != [] then [queues[s][0]] else []
    decreases |snapshot| - idx
  {
    if idx < |snapshot| {
      assert ChunksOf(s, Heads(snapshot, queues, idx + 1)) ==
        if InSuffix(snapshot, idx + 1, s) && queues[s] != [] then [queues[s][0]] else [] by {
        HeadsOfSession(snapshot, queues, idx + 1, s);
      }
      assert snapshot[idx] == s ==> !InSuffix(snapshot, idx + 1, s) by {
        if snapshot[idx] == s {
          NotAfterItself(snapshot, idx);
        }
      }
      HeadsOfSessionStep(snapshot, queues, idx, s);
    }
  }

  /** The step of HeadsOfSession: from what holds past idx to what holds from idx on. */
  lemma HeadsOfSessionStep(snapshot: seq<SessionId>, queues: Queues, idx: nat, s: SessionId)
    requires idx < |snapshot| && Covers(snapshot, queues) && QueuesTagged(queues) && s in queues
    requires ChunksOf(s, Heads(snapshot, queues, idx + 1)) ==
      if InSuffix(snapshot, idx + 1, s) && queues[s] != [] then [queues[s][0]] else []
    requires snapshot[idx] == s ==> !InSuffix(snapshot, idx + 1, s)
    ensures ChunksOf(s, Heads(snapshot, queues, idx)) ==
      if InSuffix(snapshot, idx, s) && queues[s] != [] then [queues[s][0]] else []
  {
    var sid := snapshot[idx];
    var q := queues[sid];
    var rest := Heads(snapshot, queues, idx + 1);
    var here := if q != [] then [q[0]] else [];
    assert Heads(snapshot, queues, idx) == here + rest;
    ChunksOfAppend(s, here, rest);
    HeadChunks(queues, sid, s);
    InSuffixStep(snapshot, idx, s);
  }

  /** The head of a session's queue is a chunk of that session and of no other. */
  lemma HeadChunks(queues: Queues, sid: SessionId, s: SessionId)
    requires QueuesTagged(queues) && sid in queues
    ensures var q := queues[sid];
      ChunksOf(s, if q != [] then [q[0]] else []) == if q != [] && sid == s then [q[0]] else []
  {
    var q := queues[sid];
    if q != [] {
      assert q[0] in queues[sid];
      assert ChunksOf(s, [q[0]]) == (if q[0].sessionId == s then [q[0]] else []) + ChunksOf(s, []);
    }
  }

  /** Occurring from idx on is being at idx or occurring from idx + 1 on. */
  lemma InSuffixStep(snapshot: seq<SessionId>, idx: nat, s: SessionId)
    requires idx < |snapshot|
    ensures InSuffix(snapshot, idx, s) <==> snapshot[idx] == s || InSuffix(snapshot, idx + 1, s)
  {
    if InSuffix(snapshot, idx, s) && snapshot[idx] != s {
      var k :| idx <= k < |snapshot| && snapshot[k] == s;
      assert idx + 1 <= k;
    }
  }

  /** In a repetition-free snapshot, the session at idx does not occur again after it. */
  lemma NotAfterItself(snapshot: seq<SessionId>, idx: nat)
    requires idx < |snapshot| && Distinct(snapshot)
    ensures !InSuffix(snapshot, idx + 1, snapshot[idx])
  {
  }

  lemma {:induction false} ChunksOfAppend(s: SessionId, a: seq<Request>, b: seq<Request>)
    ensures ChunksOf(s, a + b) == ChunksOf(s, a) + ChunksOf(s, b)
  {
    if a == [] {
      assert a + b == b;
    } else {
      var hd := if a[0].sessionId == s then [a[0]] else [];
      assert (a + b)[0] == a[0];
      assert (a + b)[1..] == a[1..] + b;
      assert ChunksOf(s, a + b) == hd + ChunksOf(s, a[1..] + b);
      ChunksOfAppend(s, a[1..], b);
      assert ChunksOf(s, a) == hd + ChunksOf(s, a[1..]);
    }
  }

  /** A whole pass dispatches the heads of the non-empty queues, in snapshot order, and pops them. */
  lemma CycleTakesHeads(cfg: Config, snapshot: seq<SessionId>, queues: Queues, elapsed: seq<real>)
    requires |snapshot| == |elapsed| && Covers(snapshot, queues) && Distinct(snapshot)
    ensures Flatten(Cycle(cfg, snapshot, queues, elapsed).batches) == Heads(snapshot, queues, 0)
    ensures Cycle(cfg, snapshot, queues, elapsed).queues == PopHeads(snapshot, queues, 0)
  {
    ScanTakesHeads(cfg, snapshot, queues, elapsed, 0, []);
    ScanPopsHeads(cfg, snapshot, queues, elapsed, 0, []);
    assert [] + Heads(snapshot, queues, 0) == Heads(snapshot, queues, 0);
  }

  /**
   * One pass takes at most one chunk from each session, and it is the head:
   * what the pass dispatches for a session, followed by what stays queued,
   * is that session's queue before the pass. Every other queue is untouched.
   */
  lemma CycleKeepsFifo(cfg: Config, snapshot: seq<SessionId>, queues: Queues, elapsed: seq<real>, s: SessionId)
    requires |snapshot| == |elapsed| && Covers(snapshot, queues) && Distinct(snapshot) && QueuesTagged(queues)
    requires s in queues
    ensures var p := Cycle(cfg, snapshot, queues, elapsed);
      && s in p.queues
      && |ChunksOf(s, Flatten(p.batches))| <= 1
      && ChunksOf(s, Flatten(p.batches)) + p.queues[s] == queues[s]
      && (s !in snapshot ==> p.queues[s] == queues[s])
  {
    CycleTakesHeads(cfg, snapshot, queues, elapsed);
    var heads := Heads(snapshot, queues, 0);
    var popped := PopHeads(snapshot, queues, 0);
    HeadsOfSession(snapshot, queues, 0, s);
    InSuffixFromStart(snapshot, s);
    var q := queues[s];
    var taken := InSuffix(snapshot, 0, s) && q != [];
    assert popped[s] == if taken then q[1..] else q;
    assert ChunksOf(s, heads) == if taken then [q[0]] else [];
    if taken {
      HeadThenTail(q);
    } else {
      assert [] + q == q;
    }
  }

  /** Occurring in snapshot is occurring from position 0 on. */
  lemma InSuffixFromStart(snapshot: seq<SessionId>, s: SessionId)
    ensures s in snapshot <==> InSuffix(snapshot, 0, s)
  {
    if s in snapshot {
      var k :| 0 <= k < |snapshot| && snapshot[k] == s;
    }
  }

  lemma HeadThenTail<T>(q: seq<T>)
    requires q != []
    ensures [q[0]] + q[1..] == q
  {
  }

  /**
   * Every batch of a pass is non-empty, holds at most BATCHING_SIZE + 1
   * items, and never holds two items of one session; no session appears in
   * two batches of the same pass either.
   */
  lemma CycleBatches(cfg: Config, snapshot: seq<SessionId>, queues: Queues, elapsed: seq<real>)
    requires |snapshot| == |elapsed| && Covers(snapshot, queues) && Distinct(snapshot) && QueuesTagged(queues)
    ensures var p := Cycle(cfg, snapshot, queues, elapsed);
      && DistinctSessions(Flatten(p.batches))
      && forall b :: b in p.batches ==> 0 < |b| <= cfg.batchingSize + 1 && DistinctSessions(b)
  {
    var p := Cycle(cfg, snapshot, queues, elapsed);
    CycleTakesHeads(cfg, snapshot, queues, elapsed);
    ScanBatchBound(cfg, snapshot, queues, elapsed, 0, []);
    HeadsDistinct(snapshot, queues, 0);
    FlattenDistinct(p.batches);
  }

  /** A reply on its way to a session (`send_text`). */
  datatype Reply = Reply(to: SessionId, text: string)

  /** The sends for one batch: reply i goes to the session of item i, if that session is still in `active_clients`. */
  function Route(batch: seq<Request>, replies: seq<string>, active: set<SessionId>): (r: seq<Reply>)
    requires |replies| == |batch|
    ensures forall k :: 0 <= k < |r| ==> r[k].to in active
    decreases |batch|
  {
    if batch == [] then []
    else
      var n := |batch|;
      var init := Route(batch[..n - 1], replies[..n - 1], active);
      if batch[n - 1].sessionId in active then init + [Reply(batch[n - 1].sessionId, replies[n - 1])] else init
  }

  /** The texts sent to session s, in order. */
  function RepliesTo(s: SessionId, out: seq<Reply>): seq<string>
  {
    if out == [] then []
    else
      var n := |out|;
      RepliesTo(s, out[..n - 1]) + if out[n - 1].to == s then [out[n - 1].text] else []
  }

  /** The replies at the positions of the batch that belong to session s. */
  function RepliesFor(s: SessionId, batch: seq<Request>, replies: seq<string>): seq<string>
    requires |replies| == |batch|
    decreases |batch|
  {
    if batch == [] then []
    else
      var n := |batch|;
      RepliesFor(s, batch[..n - 1], replies[..n - 1]) + if batch[n - 1].sessionId == s then [replies[n - 1]] else []
  }

  lemma {:induction false} RepliesToAppend(s: SessionId, a: seq<Reply>, b: seq<Reply>)
    ensures RepliesTo(s, a + b) == RepliesTo(s, a) + RepliesTo(s, b)
    decreases |b|
  {
    if b == [] {
      assert a + b == a;
    } else {
      var n := |b|;
      assert (a + b)[..|a + b| - 1] == a + b[..n - 1];
      RepliesToAppend(s, a, b[..n - 1]);
    }
  }

  /**
   * A session in `active_clients` receives the replies of exactly its own batch
   * items, in batch order; a session not in it receives nothing.
   */
  lemma {:induction false} RouteTo(s: SessionId, batch: seq<Request>, replies: seq<string>, active: set<SessionId>)
    requires |replies| == |batch|
    ensures RepliesTo(s, Route(batch, replies, active)) == if s in active then RepliesFor(s, batch, replies) else []
    decreases |batch|
  {
    if batch != [] {
      var n := |batch|;
      var last := batch[n - 1];
      var init := Route(batch[..n - 1], replies[..n - 1], active);
      var sent := if last.sessionId in active then [Reply(last.sessionId, replies[n - 1])] else [];
      assert Route(batch, replies, active) == init + sent;
      RouteTo(s, batch[..n - 1], replies[..n - 1], active);
      RepliesToAppend(s, init, sent);
      if sent != [] {
        RepliesToOne(s, Reply(last.sessionId, replies[n - 1]));
      }
    }
  }

  lemma RepliesToOne(s: SessionId, r: Reply)
    ensures RepliesTo(s, [r]) == if r.to == s then [r.text] else []
  {
    assert [r][..0] == [];
  }

  /** When no session occurs twice in the batch, the session of item i has reply i and nothing else. */
  lemma {:induction false} RepliesForOwnItem(batch: seq<Request>, replies: seq<string>, i: nat)
    requires |replies| == |batch| && i < |batch| && DistinctSessions(batch)
    ensures RepliesFor(batch[i].sessionId, batch, replies) == [replies[i]]
    decreases |batch|
  {
    var n := |batch|;
    var s := batch[i].sessionId;
    if i == n - 1 {
      RepliesForAbsent(s, batch[..n - 1], replies[..n - 1]);
    } else {
      assert DistinctSessions(batch[..n - 1]);
      RepliesForOwnItem(batch[..n - 1], replies[..n - 1], i);
      assert batch[..n - 1][i] == batch[i];
    }
  }

  lemma {:induction false} RepliesForAbsent(s: SessionId, batch: seq<Request>, replies: seq<string>)
    requires |replies| == |batch|
    requires forall i :: 0 <= i < |batch| ==> batch[i].sessionId != s
    ensures RepliesFor(s, batch, replies) == []
    decreases |batch|
  {
    if batch != [] {
      var n := |batch|;
      RepliesForAbsent(s, batch[..n - 1], replies[..n - 1]);
    }
  }
}
