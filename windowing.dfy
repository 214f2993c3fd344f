/**
  `prepare_sequences`: the stride-1 sliding window of length 100 over the
  corpus, as windows of ids and the id of the symbol that follows each window.
  The reshape and the division by `n_vocab` are not modelled.
*/
module Windowing {
  import opened Outcomes
  import opened Vocabulary

  /** `sequence_length` */
  const SequenceLength: nat := 100

  /** The length of `range(0, corpusLength - sequence_length, 1)`: empty when the corpus is not longer than a window. */
  function WindowCount(corpusLength: nat): (c: nat)
    ensures c > 0 ==> c - 1 + SequenceLength < corpusLength
    ensures c + SequenceLength >= corpusLength
  {
    if corpusLength > SequenceLength then corpusLength - SequenceLength else 0
  }

  /** `network_input` (windows of raw ids) and `output` (the target ids). */
  datatype Sequences = Sequences(networkInput: seq<seq<nat>>, output: seq<nat>)

  /** `symbols[k]` is the first symbol with no id: every symbol before it has one. */
  ghost predicate FirstMissing(noteToInt: map<string, nat>, symbols: seq<string>, k: nat)
  {
    && k < |symbols|
    && symbols[k] !in noteToInt
    && forall j :: 0 <= j < k ==> symbols[j] in noteToInt
  }

  /** `[note_to_int[char] for char in sequence_in]`: the first symbol with no id raises `KeyError`. */
  function Encode(noteToInt: map<string, nat>, symbols: seq<string>): (r: Result<seq<nat>>)
    ensures r.Success? <==> forall k :: 0 <= k < |symbols| ==> symbols[k] in noteToInt
    ensures r.Success? ==> |r.value| == |symbols|
    ensures r.Success? ==> forall k :: 0 <= k < |symbols| ==> r.value[k] == noteToInt[symbols[k]]
    ensures r.Failure? ==> exists k :: 0 <= k < |symbols| && FirstMissing(noteToInt, symbols, k) && r.error == UnknownSymbol(symbols[k])
  {
    if symbols == [] then Success([])
    else if symbols[0] !in noteToInt then Failure(UnknownSymbol(symbols[0]))
    else
      match Encode(noteToInt, symbols[1..])
      case Success(rest) => Success([noteToInt[symbols[0]]] + rest)
      case Failure(e) =>
        assert forall k: nat :: FirstMissing(noteToInt, symbols[1..], k) ==>
                 FirstMissing(noteToInt, symbols, k + 1) && symbols[1..][k] == symbols[k + 1];
        Failure(e)
  }

  /** Window `i` of `s` holds the ids of `notes[i..i+100]` and target `i` the id of `notes[i+100]`. */
  ghost predicate PairAt(notes: seq<string>, noteToInt: map<string, nat>, s: Sequences, i: nat)
  {
    && i + SequenceLength < |notes|
    && i < |s.networkInput|
    && i < |s.output|
    && Encode(noteToInt, notes[i..i + SequenceLength]) == Success(s.networkInput[i])
    && notes[i + SequenceLength] in noteToInt
    && s.output[i] == noteToInt[notes[i + SequenceLength]]
  }

  /**
    `s` is what `prepare_sequences` builds from `notes` with the dictionary
    `noteToInt`: one window and one target per stride-1 position.
  */
  ghost predicate IsWindowing(notes: seq<string>, noteToInt: map<string, nat>, s: Sequences)
  {
    && |s.networkInput| == WindowCount(|notes|)
    && |s.output| == WindowCount(|notes|)
    && forall i: nat :: i < WindowCount(|notes|) ==> PairAt(notes, noteToInt, s, i)
  }

  /** How far the loop has looked symbols up after `i` successful iterations. */
  function Looked(i: nat): nat
  {
    if i == 0 then 0 else i + SequenceLength
  }

  /** Appending the pair for window `i` keeps the pairs before it and adds the one at `i`. */
  lemma PairsExtend(notes: seq<string>, noteToInt: map<string, nat>, s: Sequences, i: nat, ids: seq<nat>, next: Sequences)
    requires |s.networkInput| == i && |s.output| == i
    requires forall j: nat :: j < i ==> PairAt(notes, noteToInt, s, j)
    requires i + SequenceLength < |notes|
    requires Encode(noteToInt, notes[i..i + SequenceLength]) == Success(ids)
    requires notes[i + SequenceLength] in noteToInt
    requires next == Sequences(s.networkInput + [ids], s.output + [noteToInt[notes[i + SequenceLength]]])
    ensures forall j: nat :: j < i + 1 ==> PairAt(notes, noteToInt, next, j)
  {
    forall j: nat | j < i + 1 ensures PairAt(notes, noteToInt, next, j) {
      if j < i {
        assert PairAt(notes, noteToInt, s, j);
      }
    }
  }

  /** Once window `i` and its target have ids, every symbol up to `Looked(i + 1)` has one. */
  lemma LookedExtend(notes: seq<string>, noteToInt: map<string, nat>, i: nat)
    requires i + SequenceLength < |notes|
    requires forall k :: 0 <= k < Looked(i) ==> notes[k] in noteToInt
    requires Encode(noteToInt, notes[i..i + SequenceLength]).Success?
    requires notes[i + SequenceLength] in noteToInt
    ensures forall k :: 0 <= k < Looked(i + 1) ==> notes[k] in noteToInt
  {
    var window := notes[i..i + SequenceLength];
    forall k | 0 <= k < Looked(i + 1) ensures notes[k] in noteToInt {
      if i <= k < i + SequenceLength {
        assert notes[k] == window[k - i];
      }
    }
  }

  /** The first symbol missing from window `i` is the first missing from the corpus: the loop has looked up all before it. */
  lemma WindowMissFirst(notes: seq<string>, noteToInt: map<string, nat>, i: nat, k: nat)
    requires i + SequenceLength < |notes|
    requires forall j :: 0 <= j < Looked(i) ==> notes[j] in noteToInt
    requires FirstMissing(noteToInt, notes[i..i + SequenceLength], k)
    ensures FirstMissing(noteToInt, notes, i + k)
  {
    var window := notes[i..i + SequenceLength];
    assert notes[i + k] == window[k];
    forall j | 0 <= j < i + k ensures notes[j] in noteToInt {
      if j >= i {
        assert notes[j] == window[j - i];
      }
    }
  }

  /** A missing target of window `i`, whose symbols all have ids, is the first missing symbol of the corpus. */
  lemma TargetMissFirst(notes: seq<string>, noteToInt: map<string, nat>, i: nat)
    requires i + SequenceLength < |notes|
    requires forall j :: 0 <= j < Looked(i) ==> notes[j] in noteToInt
    requires Encode(noteToInt, notes[i..i + SequenceLength]).Success?
    requires notes[i + SequenceLength] !in noteToInt
    ensures FirstMissing(noteToInt, notes, i + SequenceLength)
  {
    var window := notes[i..i + SequenceLength];
    forall j | 0 <= j < i + SequenceLength ensures notes[j] in noteToInt {
      if j >= i {
        assert notes[j] == window[j - i];
      }
    }
  }

  /**
    `prepare_sequences(notes, pitch_names, n_vocab)`. It fails exactly when the
    loop runs and some corpus symbol is missing from the vocabulary; otherwise
    it returns `len(notes) - 100` windows and targets (none when the corpus is
    not longer than a window).
  */
  method PrepareSequences(notes: seq<string>, pitchNames: seq<string>) returns (r: Result<Sequences>)
    ensures r.Success? <==> |notes| <= SequenceLength || forall k :: 0 <= k < |notes| ==> notes[k] in pitchNames
    ensures r.Success? ==> IsWindowing(notes, NoteToInt(pitchNames), r.value)
    ensures r.Failure? ==>
      exists k :: 0 <= k < |notes| && r.error == UnknownSymbol(notes[k]) &&
        notes[k] !in pitchNames && forall j :: 0 <= j < k ==> notes[j] in pitchNames
  {
    var noteToInt := NoteToInt(pitchNames);
    var networkInput: seq<seq<nat>> := [];
    var output: seq<nat> := [];
    var i := 0;
    while i < |notes| - SequenceLength
      invariant 0 <= i <= WindowCount(|notes|)
      invariant |networkInput| == i && |output| == i
      invariant forall j: nat :: j < i ==> PairAt(notes, noteToInt, Sequences(networkInput, output), j)
      invariant forall k :: 0 <= k < Looked(i) ==> notes[k] in noteToInt
    {
      var sequenceIn := notes[i..i + SequenceLength];
      var sequenceOut := notes[i + SequenceLength];
      var ids := Encode(noteToInt, sequenceIn);
      if ids.Failure? {
        ghost var k :| 0 <= k < SequenceLength && FirstMissing(noteToInt, sequenceIn, k) && ids.error == UnknownSymbol(sequenceIn[k]);
        WindowMissFirst(notes, noteToInt, i, k);
        assert FirstMissing(noteToInt, notes, i + k) && notes[i + k] == sequenceIn[k];
        return Failure(ids.error);
      }
      if sequenceOut !in noteToInt {
        TargetMissFirst(notes, noteToInt, i);
        assert FirstMissing(noteToInt, notes, i + SequenceLength);
        return Failure(UnknownSymbol(sequenceOut));
      }
      ghost var before := Sequences(networkInput, output);
      networkInput := networkInput + [ids.value];
      output := output + [noteToInt[sequenceOut]];
      PairsExtend(notes, noteToInt, before, i, ids.value, Sequences(networkInput, output));
      LookedExtend(notes, noteToInt, i);
      i := i + 1;
    }
    r := Success(Sequences(networkInput, output));
  }

  lemma WindowEntryDecodes(notes: seq<string>, names: seq<string>, s: Sequences, i: nat, k: nat)
    requires IsWindowing(notes, NoteToInt(names), s)
    requires i < |s.networkInput| && k < SequenceLength
    ensures |s.networkInput[i]| == SequenceLength
    ensures s.networkInput[i][k] < |names|
    ensures IntToNote(names)[s.networkInput[i][k]] == notes[i + k]
  {
    assert PairAt(notes, NoteToInt(names), s, i);
    var window := notes[i..i + SequenceLength];
    var e := Encode(NoteToInt(names), window);
    assert window[k] == notes[i + k];
    assert e.value[k] == NoteToInt(names)[window[k]];
    DecodeEncode(names, notes[i + k]);
  }

  /**
    The windows and targets decode, through `int_to_note`, back to the corpus
    slices they were cut from, and every id lies in `[0, n_vocab)`.
  */
  lemma WindowsDecodeToCorpus(notes: seq<string>, names: seq<string>, s: Sequences)
    requires IsWindowing(notes, NoteToInt(names), s)
    ensures forall i :: 0 <= i < |s.networkInput| ==> |s.networkInput[i]| == SequenceLength
    ensures forall i, k :: 0 <= i < |s.networkInput| && 0 <= k < |s.networkInput[i]| ==>
              && s.networkInput[i][k] < |names|
              && IntToNote(names)[s.networkInput[i][k]] == notes[i + k]
    ensures forall i :: 0 <= i < |s.output| ==>
              && s.output[i] < |names|
              && IntToNote(names)[s.output[i]] == notes[i + SequenceLength]
  {
    forall i | 0 <= i < |s.networkInput|
      ensures |s.networkInput[i]| == SequenceLength
    {
      WindowEntryDecodes(notes, names, s, i, 0);
    }
    forall i, k | 0 <= i < |s.networkInput| && 0 <= k < |s.networkInput[i]|
      ensures s.networkInput[i][k] < |names|
      ensures IntToNote(names)[s.networkInput[i][k]] == notes[i + k]
    {
      WindowEntryDecodes(notes, names, s, i, k);
    }
    forall i | 0 <= i < |s.output|
      ensures s.output[i] < |names|
      ensures IntToNote(names)[s.output[i]] == notes[i + SequenceLength]
    {
      assert PairAt(notes, NoteToInt(names), s, i);
      DecodeEncode(names, notes[i + SequenceLength]);
    }
  }
}
