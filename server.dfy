/**
 * The server's shared state (`active_clients`, `expired_sessions`,
 * `message_queue` and the model) and the operations that change it: a
 * client connecting, a chunk arriving, a client leaving, the batching pass,
 * the `inference` adapter, the replies, and the clean-up after each pass.
 */
module Server {
  import opened Base
  import opened Inference
  import opened Scheduler
  import Asr

  /** The number of model slots asr_server.py asks for: `bs = BATCHING_SIZE`. */
  function ServerSlotsAsWritten(cfg: Config): nat
  {
    cfg.batchingSize
  }

  /** The number of model slots a dispatched batch can need: BATCHING_SIZE + 1. */
  function ModelSlots(cfg: Config): nat
  {
    cfg.batchingSize + 1
  }

  /**
   * With BATCHING_SIZE = 2, three sessions holding one audio chunk each fill
   * one batch of three items in a single pass, all three for the model: one
   * more than the slots the server asked the model for.
   */
  lemma OverflowAsWritten()
    ensures var cfg := Config(2, 1000, [0], "<eos>");
      var a, b, c := Request("a", [1]), Request("b", [1]), Request("c", [1]);
      var p := Cycle(cfg, ["a", "b", "c"], map["a" := [a], "b" := [b], "c" := [c]], [0.0, 0.0, 0.0]);
      && p.batches == [[a, b, c]]
      && |ToBeInferred(cfg, p.batches[0])| > ServerSlotsAsWritten(cfg)
  {
    var cfg := Config(2, 1000, [0], "<eos>");
    var a, b, c := Request("a", [1]), Request("b", [1]), Request("c", [1]);
    OverflowPass(cfg, a, b, c);
    assert [a, b, c][..2] == [a, b] && [a, b][..1] == [a] && [a][..0] == [];
    assert a.data[0] != cfg.eosByte[0] && !IsEos(cfg, a) && !IsEos(cfg, b) && !IsEos(cfg, c);
    assert ToBeInferred(cfg, [a]) == [a];
    assert ToBeInferred(cfg, [a, b]) == [a, b];
    assert ToBeInferred(cfg, [a, b, c]) == [a, b, c];
  }

  /** The pass of OverflowAsWritten: nothing is due before the last session, so all three heads share one batch. */
  lemma OverflowPass(cfg: Config, a: Request, b: Request, c: Request)
    requires cfg.batchingSize == 2 && cfg.batchingTimeoutMs == 1000
    requires a.sessionId == "a" && b.sessionId == "b" && c.sessionId == "c"
    ensures Cycle(cfg, ["a", "b", "c"], map["a" := [a], "b" := [b], "c" := [c]], [0.0, 0.0, 0.0]).batches == [[a, b, c]]
  {
    var snapshot := ["a", "b", "c"];
    var elapsed := [0.0, 0.0, 0.0];
    var q0 := map["a" := [a], "b" := [b], "c" := [c]];
    assert "a"[0] != "b"[0] && "a"[0] != "c"[0] && "b"[0] != "c"[0];
    var q1 := q0["a" := []];
    var q2 := q1["b" := []];
    var q3 := q2["c" := []];
    assert q0["a"] == [a] && q1["b"] == [b] && q2["c"] == [c];
    assert [a][1..] == [] && [b][1..] == [] && [c][1..] == [];
    assert [] + [a] == [a] && [a] + [b] == [a, b] && [a, b] + [c] == [a, b, c];
    assert Scan(cfg, snapshot, q3, elapsed, 3, []) == Pass([], q3);
    assert Scan(cfg, snapshot, q2, elapsed, 2, [a, b]) == Pass([[a, b, c]], q3);
    assert Scan(cfg, snapshot, q1, elapsed, 1, [a]) == Pass([[a, b, c]], q3);
    assert Scan(cfg, snapshot, q0, elapsed, 0, []) == Pass([[a, b, c]], q3);
  }

  /** No batch of a pass hands the model more items than ModelSlots. */
  lemma DispatchedBatchesFit(cfg: Config, snapshot: seq<SessionId>, queues: Queues, elapsed: seq<real>)
    requires |snapshot| == |elapsed| && Covers(snapshot, queues)
    ensures forall b :: b in Cycle(cfg, snapshot, queues, elapsed).batches ==> |ToBeInferred(cfg, b)| <= ModelSlots(cfg)
  {
    ScanBatchBound(cfg, snapshot, queues, elapsed, 0, []);
  }

  /** `message_queue[s]` on the defaultdict: an absent session reads as an empty queue. */
  function QueueOf(queues: Queues, s: SessionId): seq<Request>
  {
    if s in queues then queues[s] else []
  }

  /** Every batch hands the model no more items than it has slots. */
  predicate Fits(cfg: Config, asr: Asr.ASR, batches: seq<seq<Request>>)
  {
    forall b :: b in batches ==> |ToBeInferred(cfg, b)| <= asr.bs
  }

  /** The texts `inference` returns for a batch when the model's cache is `cache`. */
  function InferenceTexts(cfg: Config, asr: Asr.ASR, cache: map<SessionId, Asr.SessionState>, batch: seq<Request>)
    : (r: seq<string>)
    requires asr.Valid() && |ToBeInferred(cfg, batch)| <= asr.bs
    ensures |r| == |batch|
  {
    var toBeInferred := ToBeInferred(cfg, batch);
    Merge(cfg, batch, if toBeInferred == [] then [] else asr.PredictTexts(cache, toBeInferred))
  }

  /** The model's cache after `inference`: the model is called only when some item is not end-of-stream. */
  function InferenceCache(cfg: Config, asr: Asr.ASR, cache: map<SessionId, Asr.SessionState>, batch: seq<Request>)
    : map<SessionId, Asr.SessionState>
    requires asr.Valid() && |ToBeInferred(cfg, batch)| <= asr.bs
  {
    var toBeInferred := ToBeInferred(cfg, batch);
    if toBeInferred == [] then cache else asr.PredictCache(cache, toBeInferred)
  }

  /**
   * Result i of `inference` is EOS_STR for an end-of-stream item, and
   * otherwise the model's text for that item, which is the k-th item the
   * model was given, k counting the items before i that are not end-of-stream.
   */
  lemma InferenceTextsAt(cfg: Config, asr: Asr.ASR, cache: map<SessionId, Asr.SessionState>, batch: seq<Request>, i: nat)
    requires asr.Valid() && |ToBeInferred(cfg, batch)| <= asr.bs && i < |batch|
    ensures IsEos(cfg, batch[i]) ==> InferenceTexts(cfg, asr, cache, batch)[i] == cfg.eosStr
    ensures !IsEos(cfg, batch[i]) ==>
      var toBeInferred := ToBeInferred(cfg, batch);
      var k := |ToBeInferred(cfg, batch[..i])|;
      && k < |toBeInferred| && toBeInferred[k] == batch[i]
      && InferenceTexts(cfg, asr, cache, batch)[i] == asr.PredictTexts(cache, toBeInferred)[k]
  {
    var toBeInferred := ToBeInferred(cfg, batch);
    var texts := if toBeInferred == [] then [] else asr.PredictTexts(cache, toBeInferred);
    MergeAt(cfg, batch, texts, i);
    if !IsEos(cfg, batch[i]) {
      ToBeInferredAt(cfg, batch, i);
    }
  }

  /**
   * A batch of end-of-stream items only is answered with EOS_STR for each
   * item, without calling the model, so the cache is left as it was.
   */
  lemma AllEosSkipsModel(cfg: Config, asr: Asr.ASR, cache: map<SessionId, Asr.SessionState>, batch: seq<Request>)
    requires asr.Valid() && forall i :: 0 <= i < |batch| ==> IsEos(cfg, batch[i])
    ensures ToBeInferred(cfg, batch) == []
    ensures InferenceCache(cfg, asr, cache, batch) == cache
    ensures InferenceTexts(cfg, asr, cache, batch) == seq(|batch|, _ => cfg.eosStr)
  {
    ToBeInferredEmpty(cfg, batch);
    var r := InferenceTexts(cfg, asr, cache, batch);
    forall i | 0 <= i < |batch| ensures r[i] == cfg.eosStr {
      MergeAt(cfg, batch, [], i);
    }
  }

  /** The replies sent for a sequence of batches and the model's cache after them. */
  datatype Served = Served(replies: seq<Reply>, cache: map<SessionId, Asr.SessionState>)

  /**
   * Batches answered one after the other, each from the cache the previous
   * one left, with the replies routed to the sessions in `active_clients`.
   */
  function Serve(cfg: Config, asr: Asr.ASR, cache: map<SessionId, Asr.SessionState>, batches: seq<seq<Request>>,
                 active: set<SessionId>): (r: Served)
    requires asr.Valid() && Fits(cfg, asr, batches)
    ensures forall k :: 0 <= k < |r.replies| ==> r.replies[k].to in active
    decreases |batches|
  {
    if batches == [] then Served([], cache)
    else
      var n := |batches|;
      assert Fits(cfg, asr, batches[..n - 1]) by {
        forall b | b in batches[..n - 1] ensures b in batches { }
      }
      var prev := Serve(cfg, asr, cache, batches[..n - 1], active);
      var b := batches[n - 1];
      Served(prev.replies + Route(b, InferenceTexts(cfg, asr, prev.cache, b), active),
             InferenceCache(cfg, asr, prev.cache, b))
  }

  /** A session gets as many replies as the batches hold chunks of it while it is in `active_clients`, and none otherwise. */
  lemma {:induction false} ServeRepliesTo(cfg: Config, asr: Asr.ASR, cache: map<SessionId, Asr.SessionState>,
                                          batches: seq<seq<Request>>, active: set<SessionId>, s: SessionId)
    requires asr.Valid() && Fits(cfg, asr, batches)
    ensures |RepliesTo(s, Serve(cfg, asr, cache, batches, active).replies)| ==
      if s in active then |ChunksOf(s, Flatten(batches))| else 0
    decreases |batches|
  {
    if batches != [] {
      var n := |batches|;
      var init, b := batches[..n - 1], batches[n - 1];
      ServeLast(cfg, asr, cache, batches, active);
      var prev := Serve(cfg, asr, cache, init, active);
      var texts := InferenceTexts(cfg, asr, prev.cache, b);
      var route := Route(b, texts, active);
      ServeRepliesTo(cfg, asr, cache, init, active, s);
      RepliesToAppend(s, prev.replies, route);
      RouteTo(s, b, texts, active);
      RepliesForCount(s, b, texts);
      FlattenLast(batches);
      ChunksOfAppend(s, Flatten(init), b);
    }
  }

  /** Serve on a non-empty sequence: what the batches before the last leave, then the last batch. */
  lemma ServeLast(cfg: Config, asr: Asr.ASR, cache: map<SessionId, Asr.SessionState>,
                  batches: seq<seq<Request>>, active: set<SessionId>)
    requires asr.Valid() && Fits(cfg, asr, batches) && batches != []
    ensures var n := |batches|;
      && Fits(cfg, asr, batches[..n - 1])
      && var prev := Serve(cfg, asr, cache, batches[..n - 1], active);
      && var b := batches[n - 1];
      && |ToBeInferred(cfg, b)| <= asr.bs
      && Serve(cfg, asr, cache, batches, active).replies ==
           prev.replies + Route(b, InferenceTexts(cfg, asr, prev.cache, b), active)
      && Serve(cfg, asr, cache, batches, active).cache == InferenceCache(cfg, asr, prev.cache, b)
  {
    var n := |batches|;
    assert batches[n - 1] in batches;
    forall b | b in batches[..n - 1] ensures b in batches { }
  }

  lemma FlattenLast(batches: seq<seq<Request>>)
    requires batches != []
    ensures Flatten(batches) == Flatten(batches[..|batches| - 1]) + batches[|batches| - 1]
  {
    var n := |batches|;
    var b := batches[n - 1];
    assert batches[..n - 1] + [b] == batches;
    FlattenAppend(batches[..n - 1], [b]);
    assert Flatten([b]) == b + Flatten([]);
  }

  /** The replies for a batch that go to session s are as many as its chunks in the batch. */
  lemma {:induction false} RepliesForCount(s: SessionId, batch: seq<Request>, replies: seq<string>)
    requires |replies| == |batch|
    ensures |RepliesFor(s, batch, replies)| == |ChunksOf(s, batch)|
    decreases |batch|
  {
    if batch != [] {
      var n := |batch|;
      RepliesForCount(s, batch[..n - 1], replies[..n - 1]);
      assert batch[..n - 1] + [batch[n - 1]] == batch;
      ChunksOfAppend(s, batch[..n - 1], [batch[n - 1]]);
      assert [batch[n - 1]][1..] == [];
    }
  }

  lemma {:induction false} ChunksOfAbsent(s: SessionId, rs: seq<Request>)
    requires forall r :: r in rs ==> r.sessionId != s
    ensures ChunksOf(s, rs) == []
  {
    if rs != [] {
      assert rs[0] in rs;
      forall r | r in rs[1..] ensures r.sessionId != s {
        assert r in rs;
      }
      ChunksOfAbsent(s, rs[1..]);
    }
  }

  /**
   * Over one pass, a session in `active_clients` whose queue holds a chunk gets
   * exactly one reply; every other session gets none.
   */
  lemma PassRepliesTo(cfg: Config, asr: Asr.ASR, cache: map<SessionId, Asr.SessionState>, snapshot: seq<SessionId>,
                      queues: Queues, elapsed: seq<real>, active: set<SessionId>, s: SessionId)
    requires asr.Valid() && asr.bs == ModelSlots(cfg)
    requires |snapshot| == |elapsed| && Covers(snapshot, queues) && Distinct(snapshot) && QueuesTagged(queues)
    ensures var p := Cycle(cfg, snapshot, queues, elapsed);
      && Fits(cfg, asr, p.batches)
      && |RepliesTo(s, Serve(cfg, asr, cache, p.batches, active).replies)| ==
         if s in active && s in snapshot && queues[s] != [] then 1 else 0
  {
    var p := Cycle(cfg, snapshot, queues, elapsed);
    DispatchedBatchesFit(cfg, snapshot, queues, elapsed);
    ServeRepliesTo(cfg, asr, cache, p.batches, active, s);
    CycleTakesHeads(cfg, snapshot, queues, elapsed);
    if s in queues {
      HeadsOfSession(snapshot, queues, 0, s);
      InSuffixFromStart(snapshot, s);
    } else {
      HeadsDistinct(snapshot, queues, 0);
      ChunksOfAbsent(s, Heads(snapshot, queues, 0));
    }
  }

  lemma AppendAssoc<T>(a: seq<T>, b: seq<T>, c: seq<T>)
    ensures (a + b) + c == a + (b + c)
  {
  }

  /** Popping the head of a queue keeps every request in the queue of its own session. */
  lemma PopKeepsTagged(queues: Queues, sid: SessionId)
    requires QueuesTagged(queues) && sid in queues && queues[sid] != []
    ensures QueuesTagged(queues[sid := queues[sid][1..]])
  {
    var q := queues[sid];
    forall r | r in q[1..] ensures r in q { }
  }

  /** Serving one more batch: it fits, its replies follow the earlier ones, and its cache follows theirs. */
  lemma ServeAppend(cfg: Config, asr: Asr.ASR, cache0: map<SessionId, Asr.SessionState>, out0: seq<Reply>,
                    done: seq<seq<Request>>, batch: seq<Request>, active: set<SessionId>)
    requires asr.Valid() && Fits(cfg, asr, done) && |ToBeInferred(cfg, batch)| <= asr.bs
    ensures Fits(cfg, asr, done + [batch])
    ensures var served := Serve(cfg, asr, cache0, done, active);
      && out0 + Serve(cfg, asr, cache0, done + [batch], active).replies ==
           (out0 + served.replies) + Route(batch, InferenceTexts(cfg, asr, served.cache, batch), active)
      && Serve(cfg, asr, cache0, done + [batch], active).cache == InferenceCache(cfg, asr, served.cache, batch)
  {
    var done' := done + [batch];
    assert done'[..|done'| - 1] == done;
    assert Fits(cfg, asr, done') by {
      forall b | b in done' ensures |ToBeInferred(cfg, b)| <= asr.bs {
        if b != batch {
          assert b in done;
        }
      }
    }
    ServeLast(cfg, asr, cache0, done', active);
    var served := Serve(cfg, asr, cache0, done, active);
    AppendAssoc(out0, served.replies, Route(batch, InferenceTexts(cfg, asr, served.cache, batch), active));
  }

  /** Popping the head of a listed session keeps the key set and the tagging of the queues. */
  lemma PopKeepsQueues(order: seq<SessionId>, queues: Queues, sid: SessionId)
    requires (forall s :: s in queues <==> s in order) && QueuesTagged(queues) && sid in queues && queues[sid] != []
    ensures var queues' := queues[sid := queues[sid][1..]];
      && (forall s :: s in queues' <==> s in order) && QueuesTagged(queues') && Covers(order, queues')
  {
    PopKeepsTagged(queues, sid);
  }

  /**
   * One step of a pass, on values: unfolding Scan at idx and regrouping the
   * batches already dispatched with the ones still to come.
   */
  lemma ScanStepFrom(cfg: Config, snapshot: seq<SessionId>, queues: Queues, elapsed: seq<real>, idx: nat,
                     batch: seq<Request>, done: seq<seq<Request>>)
    requires idx < |snapshot| == |elapsed| && Covers(snapshot, queues)
    ensures var sid := snapshot[idx];
      var q := queues[sid];
      var batch' := if q != [] then batch + [q[0]] else batch;
      var queues' := if q != [] then queues[sid := q[1..]] else queues;
      && Covers(snapshot, queues')
      && var flush := ShouldFlush(cfg, |batch'|, elapsed[idx], idx, |snapshot|);
      && var rest := Scan(cfg, snapshot, queues', elapsed, idx + 1, if flush then [] else batch');
      && var before := Scan(cfg, snapshot, queues, elapsed, idx, batch);
      && done + (if flush && batch' != [] then [batch'] else []) + rest.batches == done + before.batches
      && rest.queues == before.queues
  {
    var sid := snapshot[idx];
    var q := queues[sid];
    var batch' := if q != [] then batch + [q[0]] else batch;
    var queues' := if q != [] then queues[sid := q[1..]] else queues;
    var flush := ShouldFlush(cfg, |batch'|, elapsed[idx], idx, |snapshot|);
    var rest := Scan(cfg, snapshot, queues', elapsed, idx + 1, if flush then [] else batch');
    AppendAssoc(done, if flush && batch' != [] then [batch'] else [], rest.batches);
  }

  /** The sessions a clean-up removes: the expired ones with nothing left to process. */
  function Drained(expired: set<SessionId>, queues: Queues): set<SessionId>
  {
    set s | s in expired && QueueOf(queues, s) == []
  }

  lemma MinusAdd<V>(m: map<SessionId, V>, removed: set<SessionId>, sid: SessionId)
    ensures m - (removed + {sid}) == (m - removed) - {sid}
  {
  }

  /** Visiting one more expired session adds it to the drained ones exactly when its queue is empty. */
  lemma DrainedVisit(expired: set<SessionId>, todo: set<SessionId>, queues: Queues, sid: SessionId)
    requires sid in todo && todo <= expired
    ensures Drained(expired - (todo - {sid}), queues) ==
      Drained(expired - todo, queues) + if QueueOf(queues, sid) == [] then {sid} else {}
  {
    assert expired - (todo - {sid}) == (expired - todo) + {sid};
  }

  /**
   * After a clean-up the expired sessions still waiting are exactly those
   * with chunks still queued, and a second clean-up removes nothing.
   */
  lemma CleanUpSettles(expired: set<SessionId>, queues: Queues)
    ensures var gone := Drained(expired, queues);
      && (forall s :: s in expired - gone <==> s in expired && s in queues && queues[s] != [])
      && Drained(expired - gone, queues - gone) == {}
  {
    var gone := Drained(expired, queues);
    forall s | s in expired - gone ensures s in queues - gone && (queues - gone)[s] != [] {
      assert s !in gone;
    }
  }

  /** The session order with the sessions of `gone` deleted, the rest in their order. */
  function Without(order: seq<SessionId>, gone: set<SessionId>): (r: seq<SessionId>)
    ensures forall s :: s in r <==> s in order && s !in gone
    decreases |order|
  {
    if order == [] then []
    else
      var n := |order|;
      var init := Without(order[..n - 1], gone);
      if order[n - 1] in gone then init else init + [order[n - 1]]
  }

  /** Deleting sessions from a repetition-free order leaves it repetition-free. */
  lemma {:induction false} WithoutDistinct(order: seq<SessionId>, gone: set<SessionId>)
    requires Distinct(order)
    ensures Distinct(Without(order, gone))
    decreases |order|
  {
    if order != [] {
      var n := |order|;
      var last := order[n - 1];
      assert Distinct(order[..n - 1]);
      WithoutDistinct(order[..n - 1], gone);
      assert last !in order[..n - 1];
    }
  }

  lemma {:induction false} WithoutTwice(order: seq<SessionId>, a: set<SessionId>, b: set<SessionId>)
    ensures Without(Without(order, a), b) == Without(order, a + b)
    decreases |order|
  {
    if order != [] {
      WithoutTwice(order[..|order| - 1], a, b);
      WithoutTwiceStep(order, a, b);
    }
  }

  /** The step of WithoutTwice: from the order without its last session to the whole order. */
  lemma WithoutTwiceStep(order: seq<SessionId>, a: set<SessionId>, b: set<SessionId>)
    requires order != []
    requires Without(Without(order[..|order| - 1], a), b) == Without(order[..|order| - 1], a + b)
    ensures Without(Without(order, a), b) == Without(order, a + b)
  {
    var n := |order|;
    var last := order[n - 1];
    var init := Without(order[..n - 1], a);
    var both := Without(order[..n - 1], a + b);
    assert Without(order, a + b) == if last in a + b then both else both + [last];
    if last in a {
      assert Without(order, a) == init;
    } else {
      var w := init + [last];
      assert Without(order, a) == w;
      assert w[..|w| - 1] == init && w[|w| - 1] == last;
      assert Without(w, b) == if last in b then Without(init, b) else Without(init, b) + [last];
    }
  }

  lemma {:induction false} WithoutAbsent(order: seq<SessionId>, gone: set<SessionId>)
    requires forall s :: s in gone ==> s !in order
    ensures Without(order, gone) == order
    decreases |order|
  {
    if order != [] {
      var n := |order|;
      assert order[n - 1] in order;
      WithoutAbsent(order[..n - 1], gone);
      assert order[..n - 1] + [order[n - 1]] == order;
    }
  }

  /** Deleting a key that is absent leaves a map as it is. */
  lemma MinusAbsent<V>(m: map<SessionId, V>, k: SessionId)
    requires k !in m
    ensures m - {k} == m
  {
  }

  /** Deleting one session from the queues and from their order keeps them in step and tagged. */
  lemma RemoveKeepsQueues(order: seq<SessionId>, queues: Queues, sid: SessionId)
    requires Distinct(order) && (forall s :: s in queues <==> s in order) && QueuesTagged(queues)
    ensures var order' := Without(order, {sid});
      && Distinct(order') && (forall s :: s in queues - {sid} <==> s in order') && QueuesTagged(queues - {sid})
  {
    WithoutDistinct(order, {sid});
  }

  class Server {
    const cfg: Config
    const asr: Asr.ASR
    /**
     * `active_clients`: the sessions not yet purged. A disconnect only marks a
     * session expired, so a session that has left stays here until the clean-up
     * removes it. The websockets themselves are not modelled.
     */
    var activeClients: set<SessionId>
    var expiredSessions: set<SessionId>
    /** The keys of `message_queue` in insertion order: the order in which a pass visits them. */
    var order: seq<SessionId>
    var messageQueue: Queues
    /** Every `send_text` made, in order. */
    var outbox: seq<Reply>

    ghost predicate Valid()
      reads this`order, this`messageQueue
    {
      && asr.Valid() && asr.bs == ModelSlots(cfg)
      && Distinct(order)
      && (forall s :: s in messageQueue <==> s in order)
      && QueuesTagged(messageQueue)
    }

    /** The server's start: no session active or queued, and a model with a slot for every item a batch can hold. */
    constructor (cfg: Config, asr: Asr.ASR)
      requires asr.Valid() && asr.bs == ModelSlots(cfg)
      ensures Valid() && this.cfg == cfg && this.asr == asr
      ensures activeClients == {} && expiredSessions == {} && order == [] && messageQueue == map[] && outbox == []
    {
      this.cfg := cfg;
      this.asr := asr;
      activeClients := {};
      expiredSessions := {};
      order := [];
      messageQueue := map[];
      outbox := [];
    }

    /** A client connects under a fresh session id. */
    method Connect(sid: SessionId)
      requires Valid()
      modifies this`activeClients
      ensures Valid() && activeClients == old(activeClients) + {sid}
    {
      activeClients := activeClients + {sid};
    }

    /** A chunk arrives: it joins the tail of its session's queue, which is created (last in order) on first use. */
    method Enqueue(sid: SessionId, data: Bytes)
      requires Valid()
      modifies this`order, this`messageQueue
      ensures Valid()
      ensures messageQueue == old(messageQueue)[sid := QueueOf(old(messageQueue), sid) + [Request(sid, data)]]
      ensures order == if sid in old(order) then old(order) else old(order) + [sid]
    {
      if sid !in messageQueue {
        messageQueue := messageQueue[sid := []];
        order := order + [sid];
      }
      messageQueue := messageQueue[sid := messageQueue[sid] + [Request(sid, data)]];
    }

    /** The client's stream ended, normally or not: the session waits for clean-up. */
    method MarkExpired(sid: SessionId)
      requires Valid()
      modifies this`expiredSessions
      ensures Valid() && expiredSessions == old(expiredSessions) + {sid}
    {
      expiredSessions := expiredSessions + {sid};
    }

    /**
     * Removes every expired session whose queue is empty from `active_clients`,
     * the queues, the model's cache and the expired set; an
     * expired session with chunks still queued stays for a later pass.
     */
    method CleanUpSession()
      requires Valid()
      modifies this`activeClients, this`expiredSessions, this`order, this`messageQueue, asr
      ensures Valid()
      ensures var gone := Drained(old(expiredSessions), old(messageQueue));
        && activeClients == old(activeClients) - gone
        && messageQueue == old(messageQueue) - gone
        && order == Without(old(order), gone)
        && asr.cachedStates == old(asr.cachedStates) - gone
        && expiredSessions == old(expiredSessions) - gone
    {
      var sessionsToRemove := RemoveDrained();
      expiredSessions := expiredSessions - sessionsToRemove;
    }

    /** The loop of the clean-up, over the expired sessions in any order. */
    method RemoveDrained() returns (sessionsToRemove: set<SessionId>)
      requires Valid()
      modifies this`activeClients, this`order, this`messageQueue, asr
      ensures Valid()
      ensures sessionsToRemove == Drained(expiredSessions, old(messageQueue))
      ensures RemovedSince(old(activeClients), old(messageQueue), old(order), old(asr.cachedStates), sessionsToRemove)
    {
      sessionsToRemove := {};
      var todo := expiredSessions;
      WithoutAbsent(order, {});
      while todo != {}
        invariant CleanUpInvariant(old(activeClients), old(messageQueue), old(order), old(asr.cachedStates), todo, sessionsToRemove)
        decreases todo
      {
        var sid :| sid in todo;
        var drained := VisitExpired(sid, old(activeClients), old(messageQueue), old(order), old(asr.cachedStates),
                                    todo, sessionsToRemove);
        if drained {
          sessionsToRemove := sessionsToRemove + {sid};
        }
        todo := todo - {sid};
      }
      assert expiredSessions - todo == expiredSessions;
    }

    /** The clean-up loop has removed exactly the drained sessions among those it visited. */
    ghost predicate CleanUpInvariant(active0: set<SessionId>, queues0: Queues, order0: seq<SessionId>,
                                     cache0: map<SessionId, Asr.SessionState>, todo: set<SessionId>,
                                     removed: set<SessionId>)
      reads this, asr
    {
      && Valid()
      && todo <= expiredSessions
      && removed == Drained(expiredSessions - todo, queues0)
      && RemovedSince(active0, queues0, order0, cache0, removed)
    }

    /** `active_clients`, the queues, order and model cache are the earlier ones without the sessions of `removed`. */
    ghost predicate RemovedSince(active0: set<SessionId>, queues0: Queues, order0: seq<SessionId>,
                                 cache0: map<SessionId, Asr.SessionState>, removed: set<SessionId>)
      reads this, asr
    {
      && activeClients == active0 - removed
      && messageQueue == queues0 - removed
      && order == Without(order0, removed)
      && asr.cachedStates == cache0 - removed
    }

    /** One iteration of the clean-up loop: the session goes when its queue is empty. */
    method VisitExpired(sid: SessionId, ghost active0: set<SessionId>, ghost queues0: Queues,
                        ghost order0: seq<SessionId>, ghost cache0: map<SessionId, Asr.SessionState>,
                        ghost todo: set<SessionId>, ghost removed: set<SessionId>) returns (drained: bool)
      requires sid in todo && CleanUpInvariant(active0, queues0, order0, cache0, todo, removed)
      modifies this`activeClients, this`order, this`messageQueue, asr
      ensures drained == (QueueOf(queues0, sid) == [])
      ensures CleanUpInvariant(active0, queues0, order0, cache0, todo - {sid}, if drained then removed + {sid} else removed)
    {
      assert sid !in removed;
      DrainedVisit(expiredSessions, todo, queues0, sid);
      assert QueueOf(messageQueue, sid) == QueueOf(queues0, sid);
      drained := QueueOf(messageQueue, sid) == [];
      if drained {
        MinusAdd(queues0, removed, sid);
        MinusAdd(cache0, removed, sid);
        WithoutTwice(order0, removed, {sid});
        RemoveSession(sid);
      }
    }

    /** Drops one drained session from `active_clients`, the queues and the model's cache. */
    method RemoveSession(sid: SessionId)
      requires Valid()
      modifies this`activeClients, this`order, this`messageQueue, asr
      ensures Valid()
      ensures activeClients == old(activeClients) - {sid}
      ensures messageQueue == old(messageQueue) - {sid}
      ensures order == Without(old(order), {sid})
      ensures asr.cachedStates == old(asr.cachedStates) - {sid}
    {
      if sid in activeClients {
        activeClients := activeClients - {sid};
      }
      RemoveKeepsQueues(order, messageQueue, sid);
      if sid in messageQueue {
        messageQueue := messageQueue - {sid};
        order := Without(order, {sid});
      } else {
        MinusAbsent(messageQueue, sid);
        WithoutAbsent(order, {sid});
      }
      asr.ClearCache([sid]);
      assert (set s | s in [sid]) == {sid};
    }

    /**
     * `inference`: the model sees the items that are not end-of-stream, and
     * the results put EOS_STR and the model's texts back in batch order.
     */
    method RunInference(batch: seq<Request>) returns (results: seq<string>)
      requires Valid() && |ToBeInferred(cfg, batch)| <= asr.bs
      modifies asr
      ensures results == InferenceTexts(cfg, asr, old(asr.cachedStates), batch)
      ensures asr.cachedStates == InferenceCache(cfg, asr, old(asr.cachedStates), batch)
    {
      var toBeInferred := ToBeInferred(cfg, batch);
      var transcriptions: seq<string> := [];
      if toBeInferred != [] {
        transcriptions := asr.Predict(toBeInferred);
      }
      results := MergeResults(batch, transcriptions);
    }

    /**
     * The loop of `inference`: EOS_STR for each end-of-stream item, and the
     * next transcription, by a running index, for every other item.
     */
    method MergeResults(batch: seq<Request>, transcriptions: seq<string>) returns (results: seq<string>)
      requires |transcriptions| == |ToBeInferred(cfg, batch)|
      ensures results == Merge(cfg, batch, transcriptions)
    {
      results := [];
      var transcriptionIndex := 0;
      for i := 0 to |batch|
        invariant transcriptionIndex == |ToBeInferred(cfg, batch[..i])| <= |transcriptions|
        invariant results == Merge(cfg, batch[..i], transcriptions[..transcriptionIndex])
      {
        MergeStep(cfg, batch, transcriptions, i, transcriptionIndex);
        if batch[i].data == cfg.eosByte {
          results := results + [cfg.eosStr];
        } else {
          ToBeInferredAt(cfg, batch, i);
          results := results + [transcriptions[transcriptionIndex]];
          transcriptionIndex := transcriptionIndex + 1;
        }
      }
      assert batch[..|batch|] == batch;
      assert transcriptions[..transcriptionIndex] == transcriptions;
    }

    /** Reply i goes to the session of item i when that session is still in `active_clients`. */
    method Deliver(batch: seq<Request>, transcriptions: seq<string>)
      requires |transcriptions| == |batch|
      modifies this`outbox
      ensures outbox == old(outbox) + Route(batch, transcriptions, activeClients)
    {
      for i := 0 to |batch|
        invariant outbox == old(outbox) + Route(batch[..i], transcriptions[..i], activeClients)
      {
        assert batch[..i + 1][..i] == batch[..i];
        assert transcriptions[..i + 1][..i] == transcriptions[..i];
        var sid := batch[i].sessionId;
        if sid in activeClients {
          outbox := outbox + [Reply(sid, transcriptions[i])];
        }
      }
      assert batch[..|batch|] == batch && transcriptions[..|batch|] == transcriptions;
    }

    /**
     * One pass over the sessions, `elapsed[idx]` being the time read at step
     * idx: the pass dispatches the batches of Cycle, answers them in order
     * and leaves the queues Cycle leaves.
     */
    method ProcessPass(elapsed: seq<real>)
      requires Valid() && |elapsed| == |order|
      modifies this`messageQueue, this`outbox, asr
      ensures Valid() && order == old(order)
      ensures var p := Cycle(cfg, old(order), old(messageQueue), elapsed);
        && Fits(cfg, asr, p.batches)
        && messageQueue == p.queues
        && outbox == old(outbox) + Serve(cfg, asr, old(asr.cachedStates), p.batches, activeClients).replies
        && asr.cachedStates == Serve(cfg, asr, old(asr.cachedStates), p.batches, activeClients).cache
    {
      var snapshot := order;
      var batch: seq<Request> := [];
      ghost var done: seq<seq<Request>> := [];
      PassStarts(elapsed);
      for idx := 0 to |snapshot|
        invariant PassInvariant(elapsed, snapshot, old(messageQueue), old(asr.cachedStates), old(outbox), idx, batch, done)
      {
        batch, done := PassStep(elapsed, idx, batch, snapshot, old(messageQueue), old(asr.cachedStates), old(outbox), done);
      }
      PassEnds(elapsed, snapshot, old(messageQueue), old(asr.cachedStates), old(outbox), batch, done);
    }

    /** Before the first step, nothing is dispatched and the whole of Cycle is still to come. */
    lemma PassStarts(elapsed: seq<real>)
      requires Valid() && |elapsed| == |order|
      ensures PassInvariant(elapsed, order, messageQueue, asr.cachedStates, outbox, 0, [], [])
    {
      assert outbox == outbox + [];
    }

    /** After the last step, the batches done are Cycle's and the queues are those Cycle leaves. */
    lemma PassEnds(elapsed: seq<real>, snapshot: seq<SessionId>, queues0: Queues,
                   cache0: map<SessionId, Asr.SessionState>, out0: seq<Reply>,
                   batch: seq<Request>, done: seq<seq<Request>>)
      requires PassInvariant(elapsed, snapshot, queues0, cache0, out0, |snapshot|, batch, done)
      ensures Valid() && order == snapshot
      ensures var p := Cycle(cfg, snapshot, queues0, elapsed);
        && done == p.batches && messageQueue == p.queues && Fits(cfg, asr, p.batches)
        && outbox == out0 + Serve(cfg, asr, cache0, p.batches, activeClients).replies
        && asr.cachedStates == Serve(cfg, asr, cache0, p.batches, activeClients).cache
    {
      assert done + [] == done;
    }

    /**
     * Where a pass stands before step idx: the batches dispatched so far and
     * what the rest of the pass will dispatch make up Cycle's batches, the
     * queues are on their way to Cycle's, and the replies and the model's
     * cache are those of answering the batches dispatched so far.
     */
    ghost predicate PassInvariant(elapsed: seq<real>, snapshot: seq<SessionId>, queues0: Queues,
                                  cache0: map<SessionId, Asr.SessionState>, out0: seq<Reply>,
                                  idx: nat, batch: seq<Request>, done: seq<seq<Request>>)
      reads this`order, this`messageQueue, this`outbox, this`activeClients, asr`cachedStates
    {
      && PassQueues(elapsed, snapshot, queues0, idx, batch, done)
      && PassServed(cache0, out0, done)
    }

    /** The batches dispatched before step idx and those the rest of the pass dispatches make up Cycle's. */
    ghost predicate PassQueues(elapsed: seq<real>, snapshot: seq<SessionId>, queues0: Queues,
                               idx: nat, batch: seq<Request>, done: seq<seq<Request>>)
      reads this`order, this`messageQueue
    {
      && Valid() && order == snapshot && |elapsed| == |snapshot| && idx <= |snapshot|
      && Covers(snapshot, queues0) && Covers(snapshot, messageQueue)
      && |batch| <= cfg.batchingSize
      && var rest := Scan(cfg, snapshot, messageQueue, elapsed, idx, batch);
      && done + rest.batches == Cycle(cfg, snapshot, queues0, elapsed).batches
      && rest.queues == Cycle(cfg, snapshot, queues0, elapsed).queues
    }

    /** The replies sent and the model's cache are those of answering the batches dispatched so far. */
    ghost predicate PassServed(cache0: map<SessionId, Asr.SessionState>, out0: seq<Reply>, done: seq<seq<Request>>)
      reads this`outbox, this`activeClients, asr`cachedStates
    {
      && asr.Valid() && Fits(cfg, asr, done)
      && outbox == out0 + Serve(cfg, asr, cache0, done, activeClients).replies
      && asr.cachedStates == Serve(cfg, asr, cache0, done, activeClients).cache
    }

    /**
     * Step idx of a pass: the session's head joins the batch, and the batch
     * is dispatched and restarted when it is over BATCHING_SIZE, when the
     * elapsed time is over BATCHING_TIMEOUT_MS, or at the last session.
     */
    method PassStep(elapsed: seq<real>, idx: nat, batch: seq<Request>, ghost snapshot: seq<SessionId>,
                    ghost queues0: Queues, ghost cache0: map<SessionId, Asr.SessionState>, ghost out0: seq<Reply>,
                    ghost done: seq<seq<Request>>)
      returns (batch': seq<Request>, ghost done': seq<seq<Request>>)
      requires idx < |snapshot| && PassInvariant(elapsed, snapshot, queues0, cache0, out0, idx, batch, done)
      modifies this`messageQueue, this`outbox, asr
      ensures PassInvariant(elapsed, snapshot, queues0, cache0, out0, idx + 1, batch', done')
    {
      batch' := TakeHead(elapsed, idx, batch, snapshot, queues0, cache0, out0, done);
      batch', done' := FlushIfDue(elapsed, idx, batch', snapshot, queues0, cache0, out0, done);
    }

    /**
     * Where a pass stands once step idx has taken its head into the batch
     * and the flush test of step idx is still to be made.
     */
    ghost predicate FlushPending(elapsed: seq<real>, snapshot: seq<SessionId>, queues0: Queues,
                                 cache0: map<SessionId, Asr.SessionState>, out0: seq<Reply>,
                                 idx: nat, batch: seq<Request>, done: seq<seq<Request>>)
      reads this`order, this`messageQueue, this`outbox, this`activeClients, asr`cachedStates
    {
      && FlushQueues(elapsed, snapshot, queues0, idx, batch, done)
      && PassServed(cache0, out0, done)
    }

    ghost predicate FlushQueues(elapsed: seq<real>, snapshot: seq<SessionId>, queues0: Queues,
                                idx: nat, batch: seq<Request>, done: seq<seq<Request>>)
      reads this`order, this`messageQueue
    {
      && Valid() && order == snapshot && |elapsed| == |snapshot| && idx < |snapshot|
      && Covers(snapshot, queues0) && Covers(snapshot, messageQueue)
      && |batch| <= cfg.batchingSize + 1
      && var flush := ShouldFlush(cfg, |batch|, elapsed[idx], idx, |snapshot|);
      && var rest := Scan(cfg, snapshot, messageQueue, elapsed, idx + 1, if flush then [] else batch);
      && done + (if flush && batch != [] then [batch] else []) + rest.batches == Cycle(cfg, snapshot, queues0, elapsed).batches
      && rest.queues == Cycle(cfg, snapshot, queues0, elapsed).queues
    }

    /** `if session_q: batch.append(session_q.popleft())`. */
    method TakeHead(elapsed: seq<real>, idx: nat, batch: seq<Request>, ghost snapshot: seq<SessionId>,
                    ghost queues0: Queues, ghost cache0: map<SessionId, Asr.SessionState>, ghost out0: seq<Reply>,
                    ghost done: seq<seq<Request>>)
      returns (batch': seq<Request>)
      requires idx < |snapshot| && PassInvariant(elapsed, snapshot, queues0, cache0, out0, idx, batch, done)
      modifies this`messageQueue
      ensures FlushPending(elapsed, snapshot, queues0, cache0, out0, idx, batch', done)
    {
      ScanStepFrom(cfg, snapshot, messageQueue, elapsed, idx, batch, done);
      var sid := order[idx];
      var sessionQ := messageQueue[sid];
      batch' := batch;
      if sessionQ != [] {
        batch' := batch + [sessionQ[0]];
        PopKeepsQueues(order, messageQueue, sid);
        messageQueue := messageQueue[sid := sessionQ[1..]];
      }
    }

    /** The flush test of step idx and, when it holds, the dispatch of a non-empty batch and its restart. */
    method FlushIfDue(elapsed: seq<real>, idx: nat, batch: seq<Request>, ghost snapshot: seq<SessionId>,
                      ghost queues0: Queues, ghost cache0: map<SessionId, Asr.SessionState>, ghost out0: seq<Reply>,
                      ghost done: seq<seq<Request>>)
      returns (batch': seq<Request>, ghost done': seq<seq<Request>>)
      requires FlushPending(elapsed, snapshot, queues0, cache0, out0, idx, batch, done)
      modifies this`outbox, asr
      ensures PassInvariant(elapsed, snapshot, queues0, cache0, out0, idx + 1, batch', done')
    {
      if |batch| > cfg.batchingSize || elapsed[idx] > cfg.batchingTimeoutMs as real || idx == |order| - 1 {
        if batch != [] {
          done' := FlushBatch(elapsed, idx, batch, snapshot, queues0, cache0, out0, done);
        } else {
          done' := done;
          UnflushedQueues(elapsed, snapshot, queues0, idx, batch, done);
        }
        batch' := [];
      } else {
        batch', done' := batch, done;
        UnflushedQueues(elapsed, snapshot, queues0, idx, batch, done);
      }
    }

    /** A due flush of a non-empty batch: it is dispatched and joins the batches done. */
    method FlushBatch(elapsed: seq<real>, idx: nat, batch: seq<Request>, ghost snapshot: seq<SessionId>,
                      ghost queues0: Queues, ghost cache0: map<SessionId, Asr.SessionState>, ghost out0: seq<Reply>,
                      ghost done: seq<seq<Request>>)
      returns (ghost done': seq<seq<Request>>)
      requires FlushPending(elapsed, snapshot, queues0, cache0, out0, idx, batch, done)
      requires ShouldFlush(cfg, |batch|, elapsed[idx], idx, |snapshot|) && batch != []
      modifies this`outbox, asr
      ensures done' == done + [batch]
      ensures PassInvariant(elapsed, snapshot, queues0, cache0, out0, idx + 1, [], done')
    {
      FlushedQueues(elapsed, snapshot, queues0, idx, batch, done);
      DispatchNext(batch, cache0, out0, done);
      done' := done + [batch];
    }

    /** Dispatching one more batch extends the replies and the cache by those of answering it. */
    method DispatchNext(batch: seq<Request>, ghost cache0: map<SessionId, Asr.SessionState>, ghost out0: seq<Reply>,
                        ghost done: seq<seq<Request>>)
      requires Valid() && PassServed(cache0, out0, done) && |batch| <= cfg.batchingSize + 1
      modifies this`outbox, asr
      ensures PassServed(cache0, out0, done + [batch])
    {
      ServeAppend(cfg, asr, cache0, out0, done, batch, activeClients);
      Dispatch(batch);
    }

    /** A due flush of a non-empty batch adds it to the batches done, and the next step starts from an empty batch. */
    lemma FlushedQueues(elapsed: seq<real>, snapshot: seq<SessionId>, queues0: Queues,
                        idx: nat, batch: seq<Request>, done: seq<seq<Request>>)
      requires FlushQueues(elapsed, snapshot, queues0, idx, batch, done)
      requires ShouldFlush(cfg, |batch|, elapsed[idx], idx, |snapshot|) && batch != []
      ensures PassQueues(elapsed, snapshot, queues0, idx + 1, [], done + [batch])
    {
    }

    /** Without a dispatch, the next step starts from the batch as it is, or from an empty one after an empty flush. */
    lemma UnflushedQueues(elapsed: seq<real>, snapshot: seq<SessionId>, queues0: Queues,
                          idx: nat, batch: seq<Request>, done: seq<seq<Request>>)
      requires FlushQueues(elapsed, snapshot, queues0, idx, batch, done)
      requires !ShouldFlush(cfg, |batch|, elapsed[idx], idx, |snapshot|) || batch == []
      ensures var flush := ShouldFlush(cfg, |batch|, elapsed[idx], idx, |snapshot|);
        PassQueues(elapsed, snapshot, queues0, idx + 1, if flush then [] else batch, done)
    {
      assert done + [] == done;
    }

    /** A dispatched batch: `inference`, then each reply to the session of its item. */
    method Dispatch(batch: seq<Request>)
      requires Valid() && |ToBeInferred(cfg, batch)| <= asr.bs
      modifies this`outbox, asr
      ensures outbox == old(outbox) + Route(batch, InferenceTexts(cfg, asr, old(asr.cachedStates), batch), activeClients)
      ensures asr.cachedStates == InferenceCache(cfg, asr, old(asr.cachedStates), batch)
    {
      var transcriptions := RunInference(batch);
      Deliver(batch, transcriptions);
    }

    /**
     * One turn of `process_message_queue`: a pass over the sessions, then
     * the clean-up, which sees the queues as the pass left them.
     */
    method ProcessCycle(elapsed: seq<real>)
      requires Valid() && |elapsed| == |order|
      modifies this`activeClients, this`expiredSessions, this`order, this`messageQueue, this`outbox, asr
      ensures Valid()
      ensures var p := Cycle(cfg, old(order), old(messageQueue), elapsed);
        && Fits(cfg, asr, p.batches)
        && var served := Serve(cfg, asr, old(asr.cachedStates), p.batches, old(activeClients));
        && var gone := Drained(old(expiredSessions), p.queues);
        && outbox == old(outbox) + served.replies
        && messageQueue == p.queues - gone
        && order == Without(old(order), gone)
        && activeClients == old(activeClients) - gone
        && expiredSessions == old(expiredSessions) - gone
        && asr.cachedStates == served.cache - gone
    {
      ProcessPass(elapsed);
      CleanUpSession();
    }
  }
}
