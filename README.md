# Scalable streaming ASR server — a Dafny model

This project models the core of a small speech-recognition server. Clients stream raw audio chunks over a websocket. The server keeps one FIFO queue of chunks per session. A background loop repeatedly walks the sessions in insertion order and takes at most the head chunk of each queue into a batch. It hands the batch to a streaming ASR model that keeps a per-session continuation state, sends each transcription back to its session while that session is still in `active_clients`, and then cleans up the sessions that have disconnected and have nothing left to process. A disconnect only marks a session expired: it stays in `active_clients`, and keeps receiving the results of its remaining chunks, until the clean-up purges it once its queue is empty.

The model has five modules:

- `Base`: the shared values. A request is a session id plus a byte chunk. The configuration holds `BATCHING_SIZE`, `BATCHING_TIMEOUT_MS`, `EOS_BYTE` and `EOS_STR`.
- `Inference`: the pure half of the server's `inference` adapter. It picks the non-end-of-stream items for the model and merges the model's texts and `EOS_STR` back in batch order.
- `Scheduler`: one pass of `process_message_queue` as a function on values (`Scan`/`Cycle`), plus the routing of replies (`Route`) and the lemmas about both.
- `Asr`: the model wrapper, `class ASR`. It covers:
  - the per-session cache `cachedStates` and `clear_cache`;
  - the dummy cache and the slot selection of `predict`;
  - pad/truncate of each chunk;
  - the sliding pre-encode cache;
  - the write-back of the new states;
  - the mapping of decoder outputs to strings.

  The neural network (`conformer_stream_step`), the int16 decoding and the feature extractor are opaque functions given to the constructor.
- `Server`: the module-level state of the server as `class Server`: `active_clients`, `expired_sessions`, `message_queue` (its insertion order is the field `order`) and the model. It has these methods:
  - `Connect`, `Enqueue` and `MarkExpired` for the websocket handler;
  - `CleanUpSession` for the clean-up;
  - `RunInference` and `MergeResults` for `inference`;
  - `Deliver` for the reply loop;
  - `ProcessPass`, proved against `Scheduler.Cycle`, for the scan;
  - `ProcessCycle` for one turn of the background loop.

Time enters as one number per scan step: `elapsed[idx]` is the `time.time() - batch_start_time` read at step idx. It is compared with `BATCHING_TIMEOUT_MS` exactly as the code does, seconds against a value named in milliseconds. So with the usual configuration, a batch is flushed by the timeout only after that many seconds. The model keeps this comparison as written. The replies sent are an `outbox` sequence of (session, text) pairs.

A pass always ends with a flush (`idx == q_len - 1`), so every pass starts with an empty batch. `Cycle` therefore models a pass from `[]`. Reading `message_queue[s]` on the defaultdict for an absent session yields an empty queue (`Server.QueueOf`). In the clean-up, that read's side effect of inserting an empty queue is undone by the `del` that follows.

## Model

| member | source | states |
|---|---|---|
| Inference.ToBeInferred | asr_server.py:19 | the items handed to the model are no more than the batch holds, and none of them is end-of-stream |
| Inference.ToBeInferredPick | asr_server.py:19 | the model is handed exactly the batch's non-EOS items in batch order: an item is handed over if and only if it is in the batch and not EOS |
| Inference.ToBeInferredAt | asr_server.py:19 | a non-EOS item at position i is the k-th item handed to the model, k being the number of non-EOS items before it, so the model sees the items in batch order |
| Inference.ToBeInferredEmpty | asr_server.py:19-20 | the model is left out exactly when every item of the batch is end-of-stream (both directions) |
| Inference.Merge | asr_server.py:21-29 | one result per batch item; its content is stated by MergeAt and PickMerge |
| Inference.MergeAt | asr_server.py:21-29 | result i is EOS_STR for an EOS item, and otherwise the transcription at the running index (the count of non-EOS items before i) |
| Inference.PickMerge | asr_server.py:21-29 | read at the non-EOS positions, the results are exactly the model's transcriptions, in order |
| Inference.MergeStep | asr_server.py:23-28 | one more batch item adds EOS_STR when it is end-of-stream, and otherwise the next transcription, advancing the running index by one |
| Server.InferenceTextsAt | asr_server.py:18-29 | result i of `inference` is EOS_STR for an EOS item, else the model's text for that very item |
| Server.AllEosSkipsModel | asr_server.py:18-29 | a batch of EOS items only is answered with EOS_STR everywhere, without a model call, and leaves the model's cache unchanged |
| Server.Server.RunInference | asr_server.py:18-29 | the results and the model's new cache are those of `inference` on the old cache; the model is called only when some item is not EOS |
| Server.Server.MergeResults | asr_server.py:21-29 | the loop with the running `transcription_index` builds exactly the merge of EOS_STR and the transcriptions |
| Scheduler.ShouldFlush | asr_server.py:54 | the flush test as written (a definition, no contract): more than BATCHING_SIZE items, more than BATCHING_TIMEOUT_MS of elapsed time read in seconds, or the last session of the snapshot |
| Scheduler.TimerCountsSeconds | asr_server.py:54 | the timer compares seconds with BATCHING_TIMEOUT_MS: once BATCHING_TIMEOUT_MS milliseconds have passed, a batch under the size limit and away from the last session is still not flushed until BATCHING_TIMEOUT_MS seconds have |
| Scheduler.Scan | asr_server.py:49-63 | the rest of a pass from step idx leaves the same sessions in the queues; it only pops heads (what it dispatches is stated by ScanBatchBound and CycleTakesHeads) |
| Scheduler.Cycle | asr_server.py:48-63 | a whole pass, started with an empty batch, leaves the same sessions in the queues |
| Scheduler.ScanBatchBound | asr_server.py:48-63 | a pass never dispatches an empty batch, nor one of more than BATCHING_SIZE + 1 items |
| Scheduler.CycleTakesHeads | asr_server.py:48-63 | the batches of a pass, concatenated, are the heads of the non-empty queues in insertion order, and the queues left are those with these heads popped |
| Scheduler.CycleKeepsFifo | asr_server.py:49-52 | a pass takes at most one chunk of each session, and it is the head: what is dispatched for a session, followed by what stays queued, is its queue before the pass |
| Scheduler.HeadsOfSession | asr_server.py:49-52 | among the heads taken from the queues in insertion order, a session has exactly the head of its own queue when it occurs in the order and its queue is non-empty, and nothing otherwise |
| Scheduler.CycleBatches | asr_server.py:48-63 | every batch is non-empty, holds at most BATCHING_SIZE + 1 items and no two items of one session, and no session occurs in two batches of one pass |
| Scheduler.Route | asr_server.py:57-60 | every send goes to a session in `active_clients` (not yet purged) |
| Scheduler.RouteTo | asr_server.py:57-60 | a session in `active_clients` receives exactly the results of its own batch items, in batch order; a session not in it receives nothing |
| Scheduler.RepliesForOwnItem | asr_server.py:57-58 | when no session occurs twice in a batch, the session of item i is given result i and nothing else |
| Server.Server.Deliver | asr_server.py:57-60 | the sends of the reply loop are appended to the outbox exactly as `Route` prescribes |
| Server.ServeRepliesTo | asr_server.py:53-60 | over a sequence of dispatched batches, a session in `active_clients` gets one reply per chunk of it in the batches, and a session not in it gets none |
| Server.PassRepliesTo | asr_server.py:48-63 | over one pass, a session in `active_clients` with a queued chunk gets exactly one reply, and every other session gets none |
| Server.Server.ProcessPass | asr_server.py:48-63 | the pass dispatches Cycle's batches, each fits the model, the queues end as Cycle leaves them, and the outbox and the model's cache are those of answering the batches in order |
| Server.Server.TakeHead | asr_server.py:51-52 | the session's head, if any, is popped into the batch, and the rest of the pass still ends in Cycle's batches and queues |
| Server.Server.FlushIfDue | asr_server.py:54-63 | when the flush test holds the batch is dispatched if non-empty and restarted empty; afterwards the replies and cache are those of serving the batches dispatched so far, and the rest of the pass still ends in Cycle's batches and queues |
| Server.Server.Dispatch | asr_server.py:56-60 | the outbox gains exactly the routed results of `inference` on the batch, and the model's cache becomes the one `inference` leaves |
| Server.Server.ProcessCycle | asr_server.py:47-65 | one turn of the loop: the pass, then the clean-up, which removes the drained expired sessions from the queues as the pass left them |
| Server.Server.CleanUpSession | asr_server.py:31-41 | exactly the expired sessions whose queue is empty are removed from `active_clients`, the queues, the model's cache and the expired set; nothing else changes |
| Server.Server.VisitExpired | asr_server.py:34-40 | one iteration of the clean-up loop removes the session exactly when its queue is empty, and the loop invariant is kept |
| Server.Server.RemoveDrained | asr_server.py:33-41 | the sessions removed are exactly the expired ones whose queue reads empty, and `active_clients`, the queues, their order and the model's cache lose exactly those |
| Server.Server.RemoveSession | asr_server.py:36-40 | a drained expired session is dropped from `active_clients`, the queues (and their order) and the model's cache |
| Server.CleanUpSettles | asr_server.py:31-41 | after a clean-up, the expired sessions left are exactly those with chunks still queued, and a second clean-up removes nothing |
| Server.Server.Connect | asr_server.py:71-72 | a new session is added to `active_clients` |
| Server.Server.Enqueue | asr_server.py:76 | the chunk joins the tail of its session's queue; a new queue is created, last in the iteration order |
| Server.Server.MarkExpired | asr_server.py:80 | the session joins the expired set, whether or not its stream ended normally |
| Server.Server.constructor | asr_server.py:12-15 | the server starts with no session active, expired or queued, over a model with a slot for each item a batch can hold |
| Server.DispatchedBatchesFit | asr_server.py:54-56 | every batch a pass dispatches hands the model at most BATCHING_SIZE + 1 items, the corrected slot count |
| Server.OverflowAsWritten | asr_server.py:15 | with BATCHING_SIZE = 2, one pass over three sessions with one chunk each dispatches a batch of three model items, more than the BATCHING_SIZE slots the server creates |
| Asr.ASR.constructor | asr.py:55-63 | the dummy cache holds bs slots with the model's initial state, no hypothesis, no previous output, and a zero pre-encode cache of the configured size; the session cache is empty |
| Asr.ASR.ClearCache | asr.py:81-84 | exactly the listed sessions that are present are deleted; absent ids are ignored and every other entry is kept |
| Asr.ASR.GetDummyCache | asr.py:104-111 | the first min(n, bs) slots of the initial state |
| Asr.PadOrTruncate | asr.py:94-95 | the chunk has exactly chunk_size_frame samples: the audio's samples first, zeros after the audio ends |
| Asr.ASR.Preprocess | asr.py:92-95 | the features of the chunk padded or truncated to chunk_size_frame samples (a definition over the opaque decoder and feature extractor; the padding is stated by PadOrTruncate) |
| Asr.ASR.Assemble | asr.py:137-145 | slot i carries its own encoder state and a signal that begins with its pre-encode frames, and its length is the signal's real length whenever the preprocessor's length is (the corrected length of the asr.py:145 finding) |
| Asr.LastFrames | asr.py:151 | the last p frames of the signal, as Python's `[..., -p:]` slices: the whole signal when p is 0 or at least its length |
| Asr.ASR.SlotUpdate | asr.py:151-181 | what is stored for a slot is the step's new encoder state and the last pre_encode_cache_size frames of the slot's signal, or the whole signal when that size is 0 or at least the signal's length |
| Asr.PreEncodeWindow | asr.py:144-151 | the new pre-encode cache keeps p frames, ends with the newest frames, and keeps the most recent old frames only when fewer than p arrived |
| Asr.Selected | asr.py:122-133 | slot i holds the session's cached state when it has one, and the dummy slot otherwise; untouched slots stay dummy |
| Asr.ASR.SelectSlots | asr.py:122-133 | the selection loop yields exactly the slot states `InputStates` specifies |
| Asr.WrittenBackOrigin | asr.py:174-181 | after the write-back, every entry of the cache is either the entry it had before or the new state of a slot whose session it is |
| Asr.WrittenBackKeeps | asr.py:174-181 | a session with no slot in the batch keeps its cache entry unchanged |
| Asr.WrittenBackSlot | asr.py:174-181 | each session of the batch is in the cache afterwards and maps to the new state of its slot, unless a later slot of the same session overwrote it |
| Asr.ASR.WriteBack | asr.py:174-181 | the write-back loop leaves exactly the cache `WrittenBack` specifies |
| Asr.ASR.Predict | asr.py:113-184 | one string per message, and the cache updated by the write-back of the step's new states, given at most bs messages |
| Asr.ASR.PredictTextsAt | asr.py:183-184 | string i is the hypothesis text of slot i, or '' when the model's output for that slot is not a Hypothesis |
| Asr.TextOf | asr.py:183 | the hypothesis text for a Hypothesis and '' otherwise (a definition, no contract) |
| Asr.ASR.StateContinuity | asr.py:122-133 | a session's next step starts from the state its previous step stored, whatever slot it lands in |
| Asr.ASR.FreshSessionStartsFromInitialSlot | asr.py:125-133 | a session without a cached state starts from the initial state of the slot it occupies |
| Asr.ASR.PreEncodeSizeKept | asr.py:151 | with a non-zero window, every stored pre-encode cache holds exactly pre_encode_cache_size frames, and a step keeps it that way |
| Asr.StreamLength | asr.py:144-145 | the length handed to the model counts the prepended pre-encode frames and the chunk's frames |
| Asr.StreamLengthAsWrittenMiscounts | asr.py:145 | the length as written adds the channel count, which miscounts the signal whenever it differs from the number of prepended frames |

## Left out

- WebSocket I/O: accept, `iter_bytes`, `send_text` and disconnect detection are not modelled. A session id is a given string, and a send is a `Reply` appended to the outbox.
- Concurrency: the handlers run during each `await` of the loop. A chunk that arrives mid-pass, and the `RuntimeError` that Python raises when `message_queue` grows while the pass iterates over it, are not modelled. The model runs the operations one after another.
- The infinite `while True` loop and the `asyncio.sleep(0.02)` between turns: one turn is `Server.Server.ProcessCycle`.
- The wall clock: each scan step's elapsed time is an input.
- Startup, `/health` and `/` endpoints, logging and `print`: they carry no state the core reads.
- `config.py` is not part of this model. Its constants are the fields of `Config`.
- Session ids are the decimal `id()` of the websocket. Reuse of an id after a socket is freed is not modelled: ids are plain strings.
- The neural network, the int16 decoding and the feature extractor: opaque functions. Hence the batch-size setting of the decoder (`set_batch_size_decoding`), fp16 casting, tensor shapes and the thread pool around `preprocess_audio` are left out. `np.frombuffer` on a chunk of odd length, which raises in Python, is not modelled either.
- Asr.ASR.Predict: requires at most `bs` messages. The code never checks this, and past `bs` the tensors do not line up. The server meets this precondition by the corrected slot count (see Findings).
- Asr.ASR.Predict: the step receives the corrected signal length, `Asr.StreamLength` (the prepended pre-encode frames plus the chunk's frames), not the length as written at asr.py:145, which adds the channel count (see Findings). `Asr.StreamLengthAsWritten` models the line as written.
- Sends to a session that has left: a disconnect only marks the session expired (asr_server.py:80). It stays in `active_clients` until the clean-up purges it, so the results of its remaining chunks are still sent to it, and the model records these sends as replies. What `send_text` does on a closed socket, and any exception it raises, is not modelled.
- Server.PassRepliesTo: counts the replies per session over a pass. The text of each reply is stated separately by Scheduler.RouteTo and Server.InferenceTextsAt.
- `client.py`: it is a test client and not part of the server core.

## Findings

| source | as written | input that shows it | evidently intended | confidence | as-written member | corrected member |
|---|---|---|---|---|---|---|
| asr_server.py:15 | the model is created with `bs = BATCHING_SIZE` slots, but a batch is flushed only once it holds more than BATCHING_SIZE items (line 54), so it can reach BATCHING_SIZE + 1 | BATCHING_SIZE = 2 and three sessions with one audio chunk each: the pass builds one batch of three items for the model, which has two slots | the model has a slot for every item a batch can hold, BATCHING_SIZE + 1 | not executed | Server.OverflowAsWritten | Server.DispatchedBatchesFit |
| asr.py:145 | `processed_signal_length += cache_pre_encode.shape[1]` adds the number of feature channels, since the pre-encode cache has shape (batch, channels, frames) | any model whose channel count differs from its pre-encode cache size, e.g. 80 channels and a 9-frame cache: the length is 71 frames off | the length grows by the number of prepended frames, `cache_pre_encode.shape[2]` | not executed | Asr.StreamLengthAsWrittenMiscounts | Asr.StreamLength |
