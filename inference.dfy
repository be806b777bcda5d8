/**
 * The pure half of the server's `inference` adapter: which batch items go
 * to the model, and how the model's texts and the end-of-stream replies are
 * put back together in batch order.
 */
module Inference {
  import opened Base

  /** The items handed to the model: those that are not end-of-stream, in batch order. */
  function ToBeInferred(cfg: Config, batch: seq<Request>): (r: seq<Request>)
    ensures |r| <= |batch|
    ensures forall q :: q in r ==> !IsEos(cfg, q)
    decreases |batch|
  {
    if batch == [] then []
    else
      var n := |batch|;
      var init := ToBeInferred(cfg, batch[..n - 1]);
      if IsEos(cfg, batch[n - 1]) then init else init + [batch[n - 1]]
  }

  /**
   * A non-end-of-stream item at position i is the k-th item handed to the
   * model, where k counts the non-end-of-stream items before it; so the
   * model sees these items in batch order.
   */
  lemma {:induction false} ToBeInferredAt(cfg: Config, batch: seq<Request>, i: nat)
    requires i < |batch| && !IsEos(cfg, batch[i])
    ensures |ToBeInferred(cfg, batch[..i])| < |ToBeInferred(cfg, batch)|
    ensures ToBeInferred(cfg, batch)[|ToBeInferred(cfg, batch[..i])|] == batch[i]
  {
    var n := |batch|;
    var init := ToBeInferred(cfg, batch[..n - 1]);
    assert ToBeInferred(cfg, batch) == if IsEos(cfg, batch[n - 1]) then init else init + [batch[n - 1]];
    if i == n - 1 {
      assert batch[..n - 1] == batch[..i];
    } else {
      ToBeInferredAt(cfg, batch[..n - 1], i);
      assert batch[..n - 1][..i] == batch[..i] && batch[..n - 1][i] == batch[i];
    }
  }

  /** The model is left out exactly when every item of the batch is end-of-stream. */
  lemma {:induction false} ToBeInferredEmpty(cfg: Config, batch: seq<Request>)
    ensures ToBeInferred(cfg, batch) == [] <==> forall i :: 0 <= i < |batch| ==> IsEos(cfg, batch[i])
  {
    if batch != [] {
      var n := |batch|;
      ToBeInferredEmpty(cfg, batch[..n - 1]);
      if ToBeInferred(cfg, batch) == [] {
        forall i | 0 <= i < n ensures IsEos(cfg, batch[i]) {
          if i < n - 1 {
            assert batch[..n - 1][i] == batch[i];
          }
        }
      }
    }
  }

  /**
   * The reply list built by the loop of `inference`: the sentinel text for
   * each end-of-stream item and the next model text for every other one.
   */
  function Merge(cfg: Config, batch: seq<Request>, texts: seq<string>): (r: seq<string>)
    requires |texts| == |ToBeInferred(cfg, batch)|
    ensures |r| == |batch|
    decreases |batch|
  {
    if batch == [] then []
    else
      var n := |batch|;
      if IsEos(cfg, batch[n - 1]) then Merge(cfg, batch[..n - 1], texts) + [cfg.eosStr]
      else Merge(cfg, batch[..n - 1], texts[..|texts| - 1]) + [texts[|texts| - 1]]
  }

  /**
   * Merging one more batch item: the sentinel text when it is end-of-stream,
   * and otherwise the next model text, t being the model texts used so far.
   */
  lemma MergeStep(cfg: Config, batch: seq<Request>, texts: seq<string>, i: nat, t: nat)
    requires i < |batch| && t == |ToBeInferred(cfg, batch[..i])| <= |texts|
    ensures IsEos(cfg, batch[i]) ==> (
      && |ToBeInferred(cfg, batch[..i + 1])| == t
      && Merge(cfg, batch[..i + 1], texts[..t]) == Merge(cfg, batch[..i], texts[..t]) + [cfg.eosStr])
    ensures !IsEos(cfg, batch[i]) ==> (
      && |ToBeInferred(cfg, batch[..i + 1])| == t + 1
      && (t < |texts| ==> Merge(cfg, batch[..i + 1], texts[..t + 1]) == Merge(cfg, batch[..i], texts[..t]) + [texts[t]]))
  {
    var b := batch[..i + 1];
    assert b[..|b| - 1] == batch[..i] && b[|b| - 1] == batch[i];
    if !IsEos(cfg, batch[i]) && t < |texts| {
      var u := texts[..t + 1];
      assert u[..|u| - 1] == texts[..t] && u[|u| - 1] == texts[t];
    }
  }

  /**
   * Reply i is the sentinel text when item i is end-of-stream, and otherwise
   * the model text whose index is the number of non-end-of-stream items
   * before i (the running `transcription_index`).
   */
  lemma {:induction false} MergeAt(cfg: Config, batch: seq<Request>, texts: seq<string>, i: nat)
    requires |texts| == |ToBeInferred(cfg, batch)| && i < |batch|
    ensures IsEos(cfg, batch[i]) ==> Merge(cfg, batch, texts)[i] == cfg.eosStr
    ensures !IsEos(cfg, batch[i]) ==>
      |ToBeInferred(cfg, batch[..i])| < |texts| &&
      Merge(cfg, batch, texts)[i] == texts[|ToBeInferred(cfg, batch[..i])|]
  {
    var n := |batch|;
    var b := batch[..n - 1];
    if !IsEos(cfg, batch[i]) {
      ToBeInferredAt(cfg, batch, i);
    }
    var texts' := if IsEos(cfg, batch[n - 1]) then texts else texts[..|texts| - 1];
    assert |texts'| == |ToBeInferred(cfg, b)|;
    var init := Merge(cfg, b, texts');
    assert Merge(cfg, batch, texts) == init + [if IsEos(cfg, batch[n - 1]) then cfg.eosStr else texts[|texts| - 1]];
    if i < n - 1 {
      MergeAt(cfg, b, texts', i);
      assert b[..i] == batch[..i] && b[i] == batch[i];
    } else {
      assert batch[..i] == b;
    }
  }

  /** The entries of xs at the positions of the batch that are not end-of-stream. */
  function Pick<T>(cfg: Config, batch: seq<Request>, xs: seq<T>): seq<T>
    requires |xs| == |batch|
    decreases |batch|
  {
    if batch == [] then []
    else
      var n := |batch|;
      var init := Pick(cfg, batch[..n - 1], xs[..n - 1]);
      if IsEos(cfg, batch[n - 1]) then init else init + [xs[n - 1]]
  }

  /**
   * The model is handed exactly the batch's non-end-of-stream items, in
   * batch order: an item is handed over if and only if it is in the batch
   * and is not end-of-stream.
   */
  lemma {:induction false} ToBeInferredPick(cfg: Config, batch: seq<Request>)
    ensures ToBeInferred(cfg, batch) == Pick(cfg, batch, batch)
    ensures forall q :: q in ToBeInferred(cfg, batch) <==> q in batch && !IsEos(cfg, q)
    decreases |batch|
  {
    if batch != [] {
      var n := |batch|;
      ToBeInferredPick(cfg, batch[..n - 1]);
      assert batch == batch[..n - 1] + [batch[n - 1]];
    }
  }

  /** Read at the non-end-of-stream positions, the replies are exactly the model's texts, in order. */
  lemma {:induction false} PickMerge(cfg: Config, batch: seq<Request>, texts: seq<string>)
    requires |texts| == |ToBeInferred(cfg, batch)|
    ensures Pick(cfg, batch, Merge(cfg, batch, texts)) == texts
  {
    if batch != [] {
      var n := |batch|;
      var texts' := if IsEos(cfg, batch[n - 1]) then texts else texts[..|texts| - 1];
      MergeSnoc(cfg, batch, texts);
      PickMerge(cfg, batch[..n - 1], texts');
      PickMergeStep(cfg, batch, texts);
    }
  }

  /** The step of PickMerge: from the round trip on all but the last item to the round trip on the whole batch. */
  lemma PickMergeStep(cfg: Config, batch: seq<Request>, texts: seq<string>)
    requires batch != [] && |texts| == |ToBeInferred(cfg, batch)|
    requires var n := |batch|;
      var texts' := if IsEos(cfg, batch[n - 1]) then texts else texts[..|texts| - 1];
      && |texts'| == |ToBeInferred(cfg, batch[..n - 1])|
      && Pick(cfg, batch[..n - 1], Merge(cfg, batch[..n - 1], texts')) == texts'
    ensures Pick(cfg, batch, Merge(cfg, batch, texts)) == texts
  {
    var n := |batch|;
    var eos := IsEos(cfg, batch[n - 1]);
    var texts' := if eos then texts else texts[..|texts| - 1];
    var m := Merge(cfg, batch, texts);
    MergeSnoc(cfg, batch, texts);
    PickSnoc(cfg, batch, m);
    assert m[..n - 1] == Merge(cfg, batch[..n - 1], texts');
    assert texts' + (if eos then [] else [m[n - 1]]) == texts;
  }


  /** Merging a non-empty batch: the merge of all but its last item, then the reply for the last item. */
  lemma MergeSnoc(cfg: Config, batch: seq<Request>, texts: seq<string>)
    requires batch != [] && |texts| == |ToBeInferred(cfg, batch)|
    ensures var n := |batch|;
      var eos := IsEos(cfg, batch[n - 1]);
      var texts' := if eos then texts else texts[..|texts| - 1];
      && |texts'| == |ToBeInferred(cfg, batch[..n - 1])|
      && Merge(cfg, batch, texts) == Merge(cfg, batch[..n - 1], texts') + [if eos then cfg.eosStr else texts[|texts| - 1]]
  {
  }

  /** Picking from a non-empty batch: the pick from all but its last item, then the last entry when it is not end-of-stream. */
  lemma PickSnoc<T>(cfg: Config, batch: seq<Request>, xs: seq<T>)
    requires batch != [] && |xs| == |batch|
    ensures var n := |batch|;
      Pick(cfg, batch, xs) == Pick(cfg, batch[..n - 1], xs[..n - 1]) + if IsEos(cfg, batch[n - 1]) then [] else [xs[n - 1]]
  {
  }


}
