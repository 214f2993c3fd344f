# lofi-generator core, modelled in Dafny

This models the generation pipeline in `lofi_generator/__main__.py`:

- **Vocabulary.** The corpus of note symbols becomes `sorted(set(notes))`, a sorted list of distinct symbols, plus a dictionary in each direction.
- **Windowing.** The corpus is cut into windows of 100 integer ids, each paired with the id of the symbol that follows it (`prepare_sequences`).
- **Sampling.** 500 symbols are sampled greedily from a seed window (`generate_notes`). The network is an arbitrary scoring function `predict`, and the chosen id is `numpy.argmax` of its scores.
- **Decoding.** Each sampled symbol is decoded into a chord, a rest or a note on a timeline (`create_midi`).

Modules:

- `Outcomes` (`outcomes.dfy`) holds the errors the source raises as exceptions: `KeyError`, the `ValueError` of `randint` on an empty range, and the `ValueError` of `int`.
- `Vocabulary` (`vocabulary.dfy`) covers Python's string order, `pitch_names`, `n_vocab`, `note_to_int` and `int_to_note`.
- `Windowing` (`windowing.dfy`) covers `prepare_sequences`. It is a method with the source's loop.
- `Sampler` (`sampler.dfy`) covers `generate_notes`. It is a method over `IdList` objects, which stand for the Python lists the source appends to in place. Its specification is the function `Rollout`.
- `MidiDecoder` (`decoder.dfy`) covers `NOTE_TYPE` and `create_midi`. `create_midi` is a method with the source's loop, specified by the predicate `IsTimeline`.
- `Generator` (`generator.dfy`) covers `generate()`, which composes the modules above.

Durations are counted in sixteenth notes, so a quarter length of 0.25 becomes 1. `NOTE_TYPE` becomes eighth = 2, quarter = 4, half = 8 and 16th = 1. Offsets are therefore natural numbers.

The random choices of the source are parameters:

- the seed window index `start`;
- the duration class drawn for each symbol (`draws`).

## Model

| member | source | states |
|---|---|---|
| Vocabulary.LessIrreflexive | lofi_generator/__main__.py:26 | Python's string `<`, which `sorted` uses, never relates a string to itself |
| Vocabulary.LessTransitive | lofi_generator/__main__.py:26 | Python's string `<` is transitive |
| Vocabulary.LessTotal | lofi_generator/__main__.py:26 | any two different strings are ordered one way or the other by `<` |
| Vocabulary.Insert | lofi_generator/__main__.py:26 | adding a symbol to a strictly sorted list keeps it strictly sorted, and its members become the old members plus that symbol |
| Vocabulary.Less | lofi_generator/__main__.py:26 | Python's `str <`, which `sorted` uses: a string is never below itself, and a proper prefix is below the longer string |
| Vocabulary.PitchNames | lofi_generator/__main__.py:26 | `pitch_names` is strictly sorted (no duplicates), and a symbol is in it exactly when it occurs in the corpus |
| Vocabulary.DistinctCount | lofi_generator/__main__.py:26-27 | a strictly sorted list has as many entries as distinct members |
| Vocabulary.PitchNamesCount | lofi_generator/__main__.py:26-27 | `len(pitch_names)` equals `n_vocab = len(set(notes))` |
| Vocabulary.StrictlySortedDistinct | lofi_generator/__main__.py:26 | a strictly sorted list holds each symbol at one index only |
| Vocabulary.BelowHead | lofi_generator/__main__.py:26 | a string below the head of a strictly sorted list is below every entry |
| Vocabulary.SortedSetUnique | lofi_generator/__main__.py:26 | two strictly sorted lists with the same members are equal, so `sorted(set(...))` has one possible result |
| Vocabulary.PitchNamesDependOnlyOnSymbols | lofi_generator/__main__.py:26 | two corpora with the same symbols, in any order and multiplicity, have the same `pitch_names` |
| Vocabulary.VocabSize | lofi_generator/__main__.py:27 | `n_vocab` is at most the corpus length, and positive exactly when the corpus is non-empty |
| Vocabulary.NoteToInt | lofi_generator/__main__.py:38 | `note_to_int` has exactly the pitch names as keys, and maps each one to an index where that name is stored |
| Vocabulary.IntToNote | lofi_generator/__main__.py:93 | `int_to_note` has exactly the indices of `pitch_names` as keys, and maps each to a pitch name |
| Vocabulary.DecodeEncode | lofi_generator/__main__.py:38-93 | for every pitch name, `int_to_note[note_to_int[s]] == s` |
| Vocabulary.EncodeDecode | lofi_generator/__main__.py:38-93 | for sorted distinct pitch names, `note_to_int[int_to_note[i]] == i` for every index |
| Windowing.WindowCount | lofi_generator/__main__.py:44 | `range(0, len(notes) - 100)` has one index per window whose target exists: the last index still has a target and the next would not |
| Windowing.Encode | lofi_generator/__main__.py:47 | the comprehension succeeds exactly when every symbol of the window has an id; then it holds the symbols' ids in order; otherwise the `KeyError` names the first symbol of the window that has no id, every earlier one having an id |
| Windowing.PrepareSequences | lofi_generator/__main__.py:34-50 | the result succeeds exactly when the corpus has at most 100 symbols or every symbol has an id. A success holds `len(notes) - 100` windows (none for shorter corpora): window `i` holds the ids of `notes[i:i+100]` and target `i` the id of `notes[i+100]`. A failure is the `KeyError` of the first corpus symbol missing from `pitch_names`: every earlier symbol is in it |
| Windowing.PairsExtend | lofi_generator/__main__.py:44-48 | appending the ids of window `i` and of its target keeps every earlier pair and makes pair `i` correct |
| Windowing.LookedExtend | lofi_generator/__main__.py:44-48 | once window `i` and its target have ids, every corpus symbol up to the end of that window has one |
| Windowing.WindowEntryDecodes | lofi_generator/__main__.py:44-48 | one entry of one window maps back through `int_to_note` to the corpus symbol it was cut from |
| Windowing.WindowsDecodeToCorpus | lofi_generator/__main__.py:44-48 | every window has 100 ids; every id of every window and every target decodes through `int_to_note` to the corpus symbol at the corresponding position |
| Sampler.IdList.Append | lofi_generator/__main__.py:109 | `list.append` adds the id at the end of the list object, in place |
| Sampler.ScoresVocabulary | lofi_generator/__main__.py:78 | the final `Dense(n_vocab)` layer gives `n_vocab` scores for any window, so `argmax` of every prediction is a vocabulary index |
| Sampler.Argmax | lofi_generator/__main__.py:105 | `numpy.argmax` is an index of a largest score, and every earlier score is strictly smaller (the first maximum) |
| Sampler.Slide | lofi_generator/__main__.py:109-110 | append-then-drop-first keeps the window length, drops the oldest id and makes the new id the last |
| Sampler.Rollout | lofi_generator/__main__.py:99-110 | the greedy rollout chooses exactly `steps` ids, each a valid vocabulary index |
| Sampler.WindowAfter | lofi_generator/__main__.py:109-110 | the window keeps its length through every step |
| Sampler.Symbols | lofi_generator/__main__.py:93-107 | each chosen id becomes the pitch name at that index, so every output symbol belongs to the vocabulary |
| Sampler.SymbolsAppend | lofi_generator/__main__.py:106-107 | appending an id appends `int_to_note` of that id to the output |
| Sampler.RolloutStep | lofi_generator/__main__.py:99-110 | step `k` appends the argmax of the prediction for the window reached after `k` steps |
| Sampler.WindowStep | lofi_generator/__main__.py:109-110 | the window after step `k + 1` is the window after step `k` slid by the id chosen for it |
| Sampler.EachStepIsGreedy | lofi_generator/__main__.py:103-105 | every chosen id is the first argmax of the prediction for the window current at its step |
| Sampler.WindowIsLatestIds | lofi_generator/__main__.py:109-110 | after `k` steps the window is the last 100 ids of the seed followed by the ids chosen so far |
| Sampler.ConstantPredictorRepeats | lofi_generator/__main__.py:103-107 | a network whose argmax is always `c` produces `c` at every step |
| Sampler.PredictNext | lofi_generator/__main__.py:100-110 | one iteration: the chosen id is the first argmax of the prediction for the current window. The window object gets that id appended in place, and the loop continues with a fresh list equal to the slid window |
| Sampler.GenerateNotes | lofi_generator/__main__.py:88-112 | the output is the pitch names of the greedy rollout from the seed window. The seed window object (`pattern` aliases `network_input[start]`) is extended by the first chosen id, and no other window changes |
| MidiDecoder.Sixteenths | lofi_generator/__main__.py:12-17 | every `NOTE_TYPE` duration is positive |
| MidiDecoder.Split | lofi_generator/__main__.py:130 | `str.split(".")` yields at least one part, no part holds the separator, and a string without it yields itself |
| MidiDecoder.Join | lofi_generator/__main__.py:130 | joining two or more parts puts the separator in the result |
| MidiDecoder.IndexOf | lofi_generator/__main__.py:130 | the first position of the separator: it holds the separator and no earlier position does |
| MidiDecoder.IndexOfFirst | lofi_generator/__main__.py:130 | a position holding the separator with none before it is the first position |
| MidiDecoder.SplitAtFirst | lofi_generator/__main__.py:130 | a string splits into the text before its first separator followed by the split of the text after it |
| MidiDecoder.SplitJoin | lofi_generator/__main__.py:130 | splitting a join of separator-free parts gives back the parts |
| MidiDecoder.ShowNat | lofi_generator/__main__.py:134 | a natural number's decimal text is a non-empty run of ASCII digits |
| MidiDecoder.ParseShowNat | lofi_generator/__main__.py:134 | reading back a natural number's decimal text gives the number |
| MidiDecoder.ParseInt | lofi_generator/__main__.py:134 | `int(token)` of a digit run is its decimal value; a failure is a `ValueError` naming the token; a success needs a digit |
| MidiDecoder.ParseAll | lofi_generator/__main__.py:133-136 | parsing a chord's tokens succeeds exactly when each token parses, giving their values in order; otherwise the error is that of some token |
| MidiDecoder.ParseAllFailurePersists | lofi_generator/__main__.py:133-136 | once a prefix of the tokens fails, the whole chord fails with the same error (the first failing token stops the loop) |
| MidiDecoder.ChordNotes | lofi_generator/__main__.py:130-136 | the loop over the chord's tokens returns the pitches `ParseAll` describes, or the error of the first bad token |
| MidiDecoder.IsDigits | lofi_generator/__main__.py:129 | `str.isdigit` on ASCII digits: a digit-only token holds no "." and is never a rest marker |
| MidiDecoder.IsRestMarker | lofi_generator/__main__.py:142 | `upper() == "R"`: a rest marker is one character, not "." and not a digit, so it never takes the chord branch |
| MidiDecoder.Decode | lofi_generator/__main__.py:129-153 | only a chord-shaped symbol (containing "." or all digits) can fail, always with an invalid-token error; a decoded chord has one pitch per "."-separated token |
| MidiDecoder.DecodeKinds | lofi_generator/__main__.py:129-153 | in the order the branches are tested: a chord exactly for chord-shaped symbols that parse, a rest exactly for "R"/"r", a note named by the symbol exactly otherwise |
| MidiDecoder.ChordSymbolRoundTrip | lofi_generator/__main__.py:129-136 | the dotted decimal spelling of any non-empty list of pitch numbers decodes back to a chord of those pitches |
| MidiDecoder.ChordExample | lofi_generator/__main__.py:129-136 | "60.64.67" decodes to the chord of 60, 64 and 67 |
| MidiDecoder.RestExample | lofi_generator/__main__.py:142 | "R" and "r" both decode to a rest |
| MidiDecoder.OffsetsAdvanceByDuration | lofi_generator/__main__.py:139-156 | each event starts where the previous one ends: its offset plus the duration of its class |
| MidiDecoder.ElapsedGrows | lofi_generator/__main__.py:156 | the running offset strictly grows with every event |
| MidiDecoder.OffsetsIncrease | lofi_generator/__main__.py:121-156 | offsets of the timeline strictly increase, so no two events stack |
| MidiDecoder.RestsLastASixteenth | lofi_generator/__main__.py:142-146 | a rest symbol becomes a rest of class 16th whatever was drawn |
| MidiDecoder.Elapsed | lofi_generator/__main__.py:121-156 | `offset` after some events: each event moves it forward by at least a sixteenth and at most a half note (8 sixteenths) |
| MidiDecoder.CreateMidi | lofi_generator/__main__.py:115-156 | the result succeeds exactly when every symbol decodes. A success is one event per symbol, of the decoded kind, of the drawn class (16th for a rest), starting at the sum of the earlier durations. A failure is the error of the first symbol that does not decode: every earlier symbol decodes |
| Generator.SeedWindow | lofi_generator/__main__.py:38-47 | the seed window has 100 ids, each a vocabulary index that maps back to the corpus symbol at `start + k` |
| Generator.Sampled | lofi_generator/__main__.py:88-112 | the sampled output has 500 symbols, each drawn from the corpus |
| Generator.WindowEncodes | lofi_generator/__main__.py:47 | encoding any window of the corpus succeeds, because every corpus symbol has an id |
| Generator.WindowIdsDecode | lofi_generator/__main__.py:47 | an encoded corpus window has 100 ids, each a vocabulary index that maps back to the corpus symbol it encodes |
| Generator.SeedIsPreparedWindow | lofi_generator/__main__.py:95 | `pattern = network_input[start]` starts from exactly the seed window: window `start` of `prepare_sequences` equals the encoded corpus window at `start` |
| Generator.SeedIsWindow | lofi_generator/__main__.py:44-47 | window `start` of `prepare_sequences` holds, in order, the ids of the 100 corpus symbols from `start` |
| Generator.MakeLists | lofi_generator/__main__.py:47 | each window becomes its own fresh list object holding that window |
| Generator.Generate | lofi_generator/__main__.py:19-32 | a corpus of at most 101 symbols fails with an empty `randint` range. Otherwise the result succeeds exactly when all 500 greedily sampled symbols decode, and then it is their timeline; a failure is the invalid-pitch-token error of the first sampled symbol that does not decode, every earlier one decoding |

## Left out

- The Keras network (`create_network`, the weights file, `model.predict`) is an arbitrary function from a window of ids to one score per vocabulary entry. The model assumes that it returns `n_vocab` scores, which the final `Dense(n_vocab)` layer guarantees, and that the vocabulary is non-empty (Sampler.ScoresVocabulary requires `n > 0`): `numpy.argmax` of an empty array raises, but Generator.Generate never meets that case, because a corpus with windows has symbols.
- Normalising and reshaping the input (`numpy.reshape`, division by `n_vocab`) is left out. It only feeds the network, which is abstract here.
- The random draws of `numpy.random.randint` and `numpy.random.choice` are parameters. Their probabilities (0.65, 0.05, 0.05, 0.25) are not modelled.
- Loading the corpus with `pickle` and writing `lofi_output.mid` are I/O and are left out.
- music21 objects are left out: pitch-name parsing in `note.Note(name)`, `instrument.Piano()`, and the checks made when a chord or stream is built. A note keeps its symbol as its name and a chord keeps its integer pitches.
- MidiDecoder.ParseInt: accepts an optional sign and ASCII digits only. Python's `int` also allows surrounding whitespace, underscores between digits and non-ASCII decimal digits.
- MidiDecoder.IsDigits: is `str.isdigit` on ASCII only. Non-ASCII digits are not recognised.
- MidiDecoder.IsRestMarker: `str.upper() == "R"` is taken as "R" or "r". Other Unicode strings whose upper case is "R" are not recognised.
- Sampler.Argmax: scores are mathematical reals, so a NaN score, which `numpy.argmax` would pick first, cannot occur.
- Sampler.GenerateNotes: every window is its own list object (Generator.MakeLists), and the contract shows that only `network_input[start]`, which `pattern` aliases, changes. The source's later rebinding of `pattern` to a fresh slice is modelled as a fresh list.
- `app.py`, `scripts.py` and the training code are not part of this model.
- Windowing.PrepareSequences: a corpus of 100 symbols or fewer yields no windows rather than an error, because the code's `range` is simply empty. The failure then comes from `randint` in `generate_notes`.
- Generator.Generate: the seed index ranges over all windows but the last, because `randint(0, len(network_input) - 1)` excludes its upper bound. With fewer than two windows that range is empty and `randint` fails.
