/**
  `generate()`: build the vocabulary from the corpus, cut the windows, sample
  500 symbols greedily from a randomly chosen seed window and decode them
  into a timeline. Loading the corpus, building and loading the network and
  writing the MIDI file are not modelled; the network is `predict`, the
  seed draw is `start` and the duration draws are `draws`.
*/
module Generator {
  import opened Outcomes
  import opened Vocabulary
  import opened Windowing
  import opened Sampler
  import opened MidiDecoder

  /** The ids of window `start` of the corpus, which seeds the sampler. */
  function SeedWindow(notes: seq<string>, start: nat): (seed: seq<nat>)
    requires start + SequenceLength <= |notes|
    ensures |seed| == SequenceLength
    ensures forall k :: 0 <= k < SequenceLength ==>
              seed[k] < |PitchNames(notes)| && IntToNote(PitchNames(notes))[seed[k]] == notes[start + k]
  {
    WindowEncodes(notes, start);
    var seed := Encode(NoteToInt(PitchNames(notes)), notes[start..start + SequenceLength]).value;
    WindowIdsDecode(notes, start, seed);
    seed
  }

  /** Every symbol of a corpus window has an id, so encoding the window succeeds. */
  lemma WindowEncodes(notes: seq<string>, start: nat)
    requires start + SequenceLength <= |notes|
    ensures Encode(NoteToInt(PitchNames(notes)), notes[start..start + SequenceLength]).Success?
  {
    var names := PitchNames(notes);
    var noteToInt := NoteToInt(names);
    var window := notes[start..start + SequenceLength];
    forall k | 0 <= k < SequenceLength ensures window[k] in noteToInt {
      assert window[k] == notes[start + k];
      assert notes[start + k] in names;
    }
  }

  /** Each id of an encoded corpus window maps back through `int_to_note` to its symbol. */
  lemma WindowIdsDecode(notes: seq<string>, start: nat, ids: seq<nat>)
    requires start + SequenceLength <= |notes|
    requires Encode(NoteToInt(PitchNames(notes)), notes[start..start + SequenceLength]) == Success(ids)
    ensures |ids| == SequenceLength
    ensures forall k :: 0 <= k < SequenceLength ==>
              ids[k] < |PitchNames(notes)| && IntToNote(PitchNames(notes))[ids[k]] == notes[start + k]
  {
    var names := PitchNames(notes);
    var window := notes[start..start + SequenceLength];
    forall k | 0 <= k < SequenceLength
      ensures ids[k] < |names| && IntToNote(names)[ids[k]] == notes[start + k]
    {
      assert window[k] == notes[start + k];
      DecodeEncode(names, window[k]);
    }
  }

  /** The 500 symbols greedy sampling produces from window `start` of the corpus. */
  function Sampled(notes: seq<string>, predict: seq<nat> -> seq<real>, start: nat): (symbols: seq<string>)
    requires start + SequenceLength <= |notes|
    requires forall p :: |predict(p)| == VocabSize(notes)
    ensures |symbols| == NotesToGenerate
    ensures forall i :: 0 <= i < |symbols| ==> symbols[i] in notes
  {
    var names := PitchNames(notes);
    PitchNamesCount(notes);
    assert notes[start] in names;
    Symbols(names, Rollout(predict, |names|, SeedWindow(notes, start), NotesToGenerate))
  }

  /** Window `start` as cut by `prepare_sequences` holds the ids of the seed symbols. */
  lemma SeedIsWindow(notes: seq<string>, noteToInt: map<string, nat>, s: Sequences, start: nat)
    requires IsWindowing(notes, noteToInt, s)
    requires start < WindowCount(|notes|)
    ensures start < |s.networkInput|
    ensures |s.networkInput[start]| == SequenceLength
    ensures forall k :: 0 <= k < SequenceLength ==>
              notes[start + k] in noteToInt && s.networkInput[start][k] == noteToInt[notes[start + k]]
  {
    assert PairAt(notes, noteToInt, s, start);
    var window := notes[start..start + SequenceLength];
    assert Encode(noteToInt, window) == Success(s.networkInput[start]);
    assert forall k :: 0 <= k < SequenceLength ==> window[k] == notes[start + k];
  }

  /** The seed the sampler starts from is window `start` of the windowed corpus, as a value. */
  lemma SeedIsPreparedWindow(notes: seq<string>, s: Sequences, start: nat)
    requires IsWindowing(notes, NoteToInt(PitchNames(notes)), s)
    requires start < WindowCount(|notes|)
    ensures start < |s.networkInput|
    ensures s.networkInput[start] == SeedWindow(notes, start)
  {
    assert PairAt(notes, NoteToInt(PitchNames(notes)), s, start);
  }

  /** Wraps each window in its own list object, as `network_input` holds one Python list per window. */
  method MakeLists(windows: seq<seq<nat>>) returns (lists: seq<IdList>)
    ensures |lists| == |windows|
    ensures forall i :: 0 <= i < |windows| ==> fresh(lists[i]) && lists[i].items == windows[i]
  {
    lists := [];
    for i := 0 to |windows|
      invariant |lists| == i
      invariant forall j :: 0 <= j < i ==> fresh(lists[j]) && lists[j].items == windows[j]
    {
      var list := new IdList(windows[i]);
      lists := lists + [list];
    }
  }

  /**
    `generate()`. With at most 101 corpus symbols there are fewer than two
    windows and `randint` has an empty range; otherwise the result is the
    timeline of the sampled symbols, or the error of the first symbol whose
    chord token `int` rejects.
  */
  method Generate(notes: seq<string>, predict: seq<nat> -> seq<real>, start: nat, draws: seq<NoteType>)
    returns (r: Result<seq<Event>>)
    requires |draws| == NotesToGenerate
    requires forall p :: |predict(p)| == VocabSize(notes)
    requires |notes| > SequenceLength + 1 ==> start < |notes| - SequenceLength - 1
    ensures |notes| <= SequenceLength + 1 ==> r == Failure(EmptyStartRange)
    ensures |notes| > SequenceLength + 1 ==>
              (r.Success? <==> forall i :: 0 <= i < NotesToGenerate ==> Decode(Sampled(notes, predict, start)[i]).Success?)
    ensures |notes| > SequenceLength + 1 && r.Success? ==> IsTimeline(Sampled(notes, predict, start), draws, r.value)
    ensures |notes| > SequenceLength + 1 && r.Failure? ==> r.error.InvalidPitchToken?
    ensures |notes| > SequenceLength + 1 && r.Failure? ==>
      exists i :: 0 <= i < NotesToGenerate && Decode(Sampled(notes, predict, start)[i]) == Failure(r.error) &&
        forall j :: 0 <= j < i ==> Decode(Sampled(notes, predict, start)[j]).Success?
  {
    var pitchNames := PitchNames(notes);
    PitchNamesCount(notes);
    var prepared := PrepareSequences(notes, pitchNames);
    var networkInput := prepared.value.networkInput;
    if |networkInput| - 1 <= 0 {
      return Failure(EmptyStartRange);
    }
    SeedIsPreparedWindow(notes, prepared.value, start);
    var lists := MakeLists(networkInput);
    var predictionOutput := GenerateNotes(predict, lists, pitchNames, start);
    assert predictionOutput == Sampled(notes, predict, start);
    r := CreateMidi(predictionOutput, draws);
  }
}
