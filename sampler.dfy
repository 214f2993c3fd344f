/**
  `generate_notes`: greedy autoregressive sampling. The network is an
  arbitrary `predict` function from a window of ids to one score per
  vocabulary entry; `numpy.argmax` picks the first best score; the window
  slides by one id per step.
*/
module Sampler {
  import opened Vocabulary

  /** The number of symbols `generate_notes` produces. */
  const NotesToGenerate: nat := 500

  /** A Python list of ids: `append` changes it in place, so every name bound to it sees the change. */
  class IdList {
    var items: seq<nat>

    constructor (items: seq<nat>)
      ensures this.items == items
    {
      this.items := items;
    }

    /** `list.append` */
    method Append(x: nat)
      modifies this
      ensures items == old(items) + [x]
    {
      items := items + [x];
    }
  }

  /** The network's output layer has one score per vocabulary entry (`Dense(n_vocab)`), and the vocabulary is not empty. */
  ghost predicate ScoresVocabulary(predict: seq<nat> -> seq<real>, n: nat)
    ensures ScoresVocabulary(predict, n) ==> forall p :: |predict(p)| > 0 && Argmax(predict(p)) < n
  {
    n > 0 && forall p :: |predict(p)| == n
  }

  /** `numpy.argmax`: the first index of a maximal score. */
  function Argmax(scores: seq<real>): (k: nat)
    requires |scores| > 0
    ensures k < |scores|
    ensures forall j :: 0 <= j < |scores| ==> scores[j] <= scores[k]
    ensures forall j :: 0 <= j < k ==> scores[j] < scores[k]
  {
    if |scores| == 1 then 0
    else
      var k := Argmax(scores[..|scores| - 1]);
      if scores[|scores| - 1] > scores[k] then |scores| - 1 else k
  }

  /** `pattern.append(index)` then `pattern = pattern[1:len(pattern)]`: the window keeps its length, drops its oldest id and ends with `index`. */
  function Slide(pattern: seq<nat>, index: nat): (next: seq<nat>)
    ensures |next| == |pattern|
    ensures |pattern| > 0 ==> next == pattern[1..] + [index]
    ensures |pattern| > 0 ==> next[|next| - 1] == index
  {
    (pattern + [index])[1..]
  }

  /** The ids greedy sampling chooses in `steps` steps from the window `pattern`. */
  function Rollout(predict: seq<nat> -> seq<real>, n: nat, pattern: seq<nat>, steps: nat): (ids: seq<nat>)
    requires ScoresVocabulary(predict, n)
    ensures |ids| == steps
    ensures forall k :: 0 <= k < steps ==> ids[k] < n
    // `pattern` in the measure stops the verifier from unrolling a literal step count such as 500
    decreases steps, pattern
  {
    if steps == 0 then []
    else
      var index := Argmax(predict(pattern));
      [index] + Rollout(predict, n, Slide(pattern, index), steps - 1)
  }

  /** The window after `steps` steps of greedy sampling from `pattern`. */
  function WindowAfter(predict: seq<nat> -> seq<real>, n: nat, pattern: seq<nat>, steps: nat): (w: seq<nat>)
    requires ScoresVocabulary(predict, n)
    ensures |w| == |pattern|
    decreases steps
  {
    if steps == 0 then pattern
    else WindowAfter(predict, n, Slide(pattern, Argmax(predict(pattern))), steps - 1)
  }

  /** `int_to_note[index]` for each chosen id, in order. */
  function Symbols(names: seq<string>, ids: seq<nat>): (symbols: seq<string>)
    requires forall k :: 0 <= k < |ids| ==> ids[k] < |names|
    ensures |symbols| == |ids|
    ensures forall k :: 0 <= k < |ids| ==> symbols[k] == names[ids[k]] && symbols[k] in names
  {
    if ids == [] then []
    else Symbols(names, ids[..|ids| - 1]) + [IntToNote(names)[ids[|ids| - 1]]]
  }

  lemma SymbolsAppend(names: seq<string>, ids: seq<nat>, index: nat)
    requires forall k :: 0 <= k < |ids| ==> ids[k] < |names|
    requires index < |names|
    ensures Symbols(names, ids + [index]) == Symbols(names, ids) + [IntToNote(names)[index]]
  {
    assert (ids + [index])[..|ids|] == ids;
  }

  /** Step `steps` chooses the argmax of the prediction for the window reached after `steps` steps. */
  lemma {:induction false} RolloutStep(predict: seq<nat> -> seq<real>, n: nat, pattern: seq<nat>, steps: nat)
    requires ScoresVocabulary(predict, n)
    ensures Rollout(predict, n, pattern, steps + 1)
         == Rollout(predict, n, pattern, steps) + [Argmax(predict(WindowAfter(predict, n, pattern, steps)))]
    decreases steps
  {
    if steps > 0 {
      var next := Slide(pattern, Argmax(predict(pattern)));
      RolloutStep(predict, n, next, steps - 1);
    }
  }

  /** The window after `steps + 1` steps is the window after `steps` steps slid by the id chosen for it. */
  lemma {:induction false} WindowStep(predict: seq<nat> -> seq<real>, n: nat, pattern: seq<nat>, steps: nat)
    requires ScoresVocabulary(predict, n)
    ensures WindowAfter(predict, n, pattern, steps + 1)
         == Slide(WindowAfter(predict, n, pattern, steps), Argmax(predict(WindowAfter(predict, n, pattern, steps))))
    decreases steps
  {
    if steps > 0 {
      WindowStep(predict, n, Slide(pattern, Argmax(predict(pattern))), steps - 1);
    }
  }

  /** Every chosen id is the first argmax of the prediction for the window current at its step. */
  lemma {:induction false} EachStepIsGreedy(predict: seq<nat> -> seq<real>, n: nat, pattern: seq<nat>, steps: nat)
    requires ScoresVocabulary(predict, n)
    ensures forall j :: 0 <= j < steps ==>
              Rollout(predict, n, pattern, steps)[j] == Argmax(predict(WindowAfter(predict, n, pattern, j)))
  {
    if steps > 0 {
      EachStepIsGreedy(predict, n, pattern, steps - 1);
      RolloutStep(predict, n, pattern, steps - 1);
    }
  }

  /** After `steps` steps the window holds exactly the latest `|pattern|` ids of the seed followed by the chosen ids. */
  lemma {:induction false} WindowIsLatestIds(predict: seq<nat> -> seq<real>, n: nat, pattern: seq<nat>, steps: nat)
    requires ScoresVocabulary(predict, n)
    ensures WindowAfter(predict, n, pattern, steps) == (pattern + Rollout(predict, n, pattern, steps))[steps..]
    decreases steps
  {
    if steps > 0 {
      var k := steps - 1;
      var before := WindowAfter(predict, n, pattern, k);
      var index := Argmax(predict(before));
      var all := pattern + Rollout(predict, n, pattern, k);
      WindowIsLatestIds(predict, n, pattern, k);
      WindowStep(predict, n, pattern, k);
      RolloutStep(predict, n, pattern, k);
      assert pattern + Rollout(predict, n, pattern, steps) == all + [index];
      assert (all[k..] + [index])[1..] == (all + [index])[steps..];
    }
  }


  /** A network whose best score always falls on the same id `c` makes the sampler repeat `c`. */
  lemma {:induction false} ConstantPredictorRepeats(predict: seq<nat> -> seq<real>, n: nat, pattern: seq<nat>, steps: nat, c: nat)
    requires ScoresVocabulary(predict, n)
    requires forall p :: Argmax(predict(p)) == c
    ensures forall j :: 0 <= j < steps ==> Rollout(predict, n, pattern, steps)[j] == c
    decreases steps
  {
    if steps > 0 {
      ConstantPredictorRepeats(predict, n, Slide(pattern, c), steps - 1, c);
    }
  }

  /**
    One iteration of the sampling loop: predict from the current window,
    take the first argmax, append it to the window object in place and
    continue with a fresh list holding the window without its oldest id.
  */
  method PredictNext(predict: seq<nat> -> seq<real>, n: nat, pattern: IdList) returns (index: nat, next: IdList)
    requires ScoresVocabulary(predict, n)
    modifies pattern
    ensures index == Argmax(predict(old(pattern.items))) && index < n
    ensures pattern.items == old(pattern.items) + [index]
    ensures fresh(next) && next.items == Slide(old(pattern.items), index)
  {
    var prediction := predict(pattern.items);
    index := Argmax(prediction);
    pattern.Append(index);
    next := new IdList(pattern.items[1..]);
  }

  /**
    `generate_notes(model, network_input, pitch_names, n_vocab)` with the
    random draw `start` of `randint(0, len(network_input) - 1)` passed in.
    It returns the symbols of the 500 greedily chosen ids. Because `pattern`
    is first bound to `network_input[start]` itself, the first `append`
    also lengthens that seed window by the first chosen id; no other window
    changes.
  */
  method GenerateNotes(predict: seq<nat> -> seq<real>, networkInput: seq<IdList>, pitchNames: seq<string>, start: nat)
    returns (predictionOutput: seq<string>)
    requires start < |networkInput| - 1
    requires ScoresVocabulary(predict, |pitchNames|)
    modifies networkInput[start]
    ensures predictionOutput
         == Symbols(pitchNames, Rollout(predict, |pitchNames|, old(networkInput[start].items), NotesToGenerate))
    ensures networkInput[start].items
         == old(networkInput[start].items) + [Argmax(predict(old(networkInput[start].items)))]
    ensures forall w :: w in networkInput && w != networkInput[start] ==> w.items == old(w.items)
  {
    var n := |pitchNames|;
    var intToNote := IntToNote(pitchNames);
    var pattern := networkInput[start];
    ghost var seed := pattern.items;
    predictionOutput := [];
    for noteIndex := 0 to NotesToGenerate
      invariant noteIndex == 0 ==> pattern == networkInput[start]
      invariant noteIndex > 0 ==> fresh(pattern) && networkInput[start].items == seed + [Argmax(predict(seed))]
      invariant pattern.items == WindowAfter(predict, n, seed, noteIndex)
      invariant predictionOutput == Symbols(pitchNames, Rollout(predict, n, seed, noteIndex))
    {
      var index;
      index, pattern := PredictNext(predict, n, pattern);
      var result := intToNote[index];
      RolloutStep(predict, n, seed, noteIndex);
      WindowStep(predict, n, seed, noteIndex);
      SymbolsAppend(pitchNames, Rollout(predict, n, seed, noteIndex), index);
      predictionOutput := predictionOutput + [result];
    }
  }
}
