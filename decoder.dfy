/**
  `create_midi` without the MIDI write: each generated symbol becomes a
  chord, a rest or a single note, placed at the running offset, which then
  advances by the event's duration. Durations are counted in sixteenth
  notes, so `NOTE_TYPE`'s 0.5, 1, 2 and 0.25 beats are exact.
*/
module MidiDecoder {
  import opened Outcomes

  /** The keys of `NOTE_TYPE`: "eighth", "quarter", "half" and "16th". */
  datatype NoteType = Eighth | Quarter | Half | Sixteenth

  /** `NOTE_TYPE[t]` in sixteenth notes: 0.5, 1, 2 and 0.25 quarter-note beats. */
  function Sixteenths(t: NoteType): (d: nat)
    ensures d >= 1
  {
    match t
    case Eighth => 2
    case Quarter => 4
    case Half => 8
    case Sixteenth => 1
  }

  /** What one symbol decodes to; every pitched note carries the piano voice. */
  datatype Element =
    | Chord(pitches: seq<int>)   // `chord.Chord` of one `note.Note(int(token))` per token
    | Rest                       // `note.Rest`
    | Note(name: string)         // `note.Note(pattern)`, the symbol read as a pitch name

  /** A placed event: what it is, its duration class and its offset in sixteenths. */
  datatype Event = Event(element: Element, noteType: NoteType, offset: nat)

  predicate IsDigit(c: char)
  {
    '0' <= c <= '9'
  }

  /** `str.isdigit()` on ASCII: non-empty and all decimal digits. */
  predicate IsDigits(s: string)
    ensures IsDigits(s) ==> '.' !in s && !IsRestMarker(s)
  {
    |s| > 0 && forall i :: 0 <= i < |s| ==> IsDigit(s[i])
  }

  /** `str(pattern).upper() == "R"`: only "R" and "r" upper-case to "R". */
  predicate IsRestMarker(s: string)
    ensures IsRestMarker(s) ==> |s| == 1 && s[0] != '.' && !IsDigit(s[0])
  {
    s == "R" || s == "r"
  }

  /** The position of the first `c` in `s`. */
  function IndexOf(s: string, c: char): (i: nat)
    requires c in s
    ensures i < |s| && s[i] == c
    ensures c !in s[..i]
  {
    if s[0] == c then 0
    else
      assert s == [s[0]] + s[1..];
      var i := IndexOf(s[1..], c);
      assert s[..i + 1] == [s[0]] + s[1..][..i];
      i + 1
  }

  /** `s.split(sep)`: the text before the first separator, then the split of the text after it. */
  function Split(s: string, sep: char): (parts: seq<string>)
    ensures |parts| > 0
    ensures forall k :: 0 <= k < |parts| ==> sep !in parts[k]
    ensures sep !in s ==> parts == [s]
    decreases |s|
  {
    if sep !in s then [s]
    else
      var i := IndexOf(s, sep);
      [s[..i]] + Split(s[i + 1..], sep)
  }

  /** `sep.join(parts)` */
  function Join(parts: seq<string>, sep: char): (s: string)
    requires |parts| > 0
    ensures |parts| > 1 ==> sep in s
  {
    if |parts| == 1 then parts[0]
    else
      var rest := Join(parts[1..], sep);
      assert (parts[0] + [sep] + rest)[|parts[0]|] == sep;
      parts[0] + [sep] + rest
  }

  /** A position holding `c` with no `c` before it is the one `IndexOf` finds. */
  lemma IndexOfFirst(s: string, c: char, n: nat)
    requires n < |s| && s[n] == c && c !in s[..n]
    ensures IndexOf(s, c) == n
  {
    var i := IndexOf(s, c);
    forall j | 0 <= j < n ensures s[j] != c {
      assert s[..n][j] == s[j];
    }
    forall j | 0 <= j < i ensures s[j] != c {
      assert s[..i][j] == s[j];
    }
  }

  /** A string splits at its first separator into the text before it and the split of the text after it. */
  lemma SplitAtFirst(s: string, sep: char, n: nat)
    requires n < |s| && s[n] == sep && sep !in s[..n]
    ensures Split(s, sep) == [s[..n]] + Split(s[n + 1..], sep)
  {
    IndexOfFirst(s, sep, n);
  }

  /** Splitting on the separator undoes joining parts that do not contain it. */
  lemma {:induction false} SplitJoin(parts: seq<string>, sep: char)
    requires |parts| > 0
    requires forall k :: 0 <= k < |parts| ==> sep !in parts[k]
    ensures Split(Join(parts, sep), sep) == parts
  {
    if |parts| > 1 {
      var rest := Join(parts[1..], sep);
      var s := parts[0] + [sep] + rest;
      var n := |parts[0]|;
      assert s[..n] == parts[0] && s[n] == sep && s[n + 1..] == rest;
      SplitAtFirst(s, sep, n);
      SplitJoin(parts[1..], sep);
      assert parts == [parts[0]] + parts[1..];
    }
  }

  function DigitValue(c: char): nat
    requires IsDigit(c)
  {
    c as int - '0' as int
  }

  /** The value of a string of decimal digits, most significant first. */
  function ParseDigits(s: string): nat
    requires forall i :: 0 <= i < |s| ==> IsDigit(s[i])
  {
    if s == [] then 0 else ParseDigits(s[..|s| - 1]) * 10 + DigitValue(s[|s| - 1])
  }

  /** `str(n)` for a natural number. */
  function ShowNat(n: nat): (s: string)
    ensures IsDigits(s)
  {
    if n < 10 then [('0' as int + n) as char]
    else ShowNat(n / 10) + [('0' as int + n % 10) as char]
  }

  lemma {:induction false} ParseShowNat(n: nat)
    ensures ParseDigits(ShowNat(n)) == n
  {
    if n >= 10 {
      ParseShowNat(n / 10);
      var s := ShowNat(n);
      assert s[..|s| - 1] == ShowNat(n / 10);
    }
  }

  /** `int(token)` for an optional sign followed by decimal digits; anything else raises `ValueError`. */
  function ParseInt(token: string): (r: Result<int>)
    ensures r.Failure? ==> r.error == InvalidPitchToken(token)
    ensures IsDigits(token) ==> r == Success(ParseDigits(token))
    ensures r.Success? ==> exists i :: 0 <= i < |token| && IsDigit(token[i])
  {
    if |token| > 1 && (token[0] == '+' || token[0] == '-') && IsDigits(token[1..]) then
      assert IsDigit(token[1..][0]);
      var magnitude := ParseDigits(token[1..]);
      Success(if token[0] == '-' then -(magnitude as int) else magnitude)
    else if IsDigits(token) then
      assert IsDigit(token[0]);
      Success(ParseDigits(token))
    else Failure(InvalidPitchToken(token))
  }

  /** Every token of a chord read as an integer, left to right; the first bad token raises. */
  function ParseAll(tokens: seq<string>): (r: Result<seq<int>>)
    ensures r.Success? <==> forall k :: 0 <= k < |tokens| ==> ParseInt(tokens[k]).Success?
    ensures r.Success? ==> |r.value| == |tokens|
    ensures r.Success? ==> forall k :: 0 <= k < |tokens| ==> r.value[k] == ParseInt(tokens[k]).value
    ensures r.Failure? ==> exists k :: 0 <= k < |tokens| && ParseInt(tokens[k]) == Failure(r.error)
  {
    if tokens == [] then Success([])
    else
      var last := |tokens| - 1;
      match ParseAll(tokens[..last])
      case Failure(e) => Failure(e)
      case Success(pitches) =>
        match ParseInt(tokens[last])
        case Failure(e) => Failure(e)
        case Success(p) => Success(pitches + [p])
  }

  lemma {:induction false} ParseAllFailurePersists(tokens: seq<string>, k: nat)
    requires k <= |tokens| && ParseAll(tokens[..k]).Failure?
    ensures ParseAll(tokens) == ParseAll(tokens[..k])
    decreases |tokens| - k
  {
    if k < |tokens| {
      assert tokens[..k + 1][..k] == tokens[..k];
      ParseAllFailurePersists(tokens, k + 1);
    } else {
      assert tokens[..k] == tokens;
    }
  }

  /**
    How `create_midi` reads one symbol: a chord when it contains "." or is
    all digits (one pitch per "."-separated token), else a rest when it is
    "R" in either case, else a single note named by the symbol.
  */
  function Decode(symbol: string): (r: Result<Element>)
    ensures r.Failure? ==> '.' in symbol || IsDigits(symbol)
    ensures r.Failure? ==> r.error.InvalidPitchToken?
    ensures r.Success? && r.value.Chord? ==> |r.value.pitches| == |Split(symbol, '.')|
  {
    if '.' in symbol || IsDigits(symbol) then
      match ParseAll(Split(symbol, '.'))
      case Success(pitches) => Success(Chord(pitches))
      case Failure(e) => Failure(e)
    else if IsRestMarker(symbol) then Success(Rest)
    else Success(Note(symbol))
  }

  /** The three kinds, in the order the decoder tests them. */
  lemma DecodeKinds(symbol: string)
    ensures Decode(symbol).Success? && Decode(symbol).value.Chord? <==>
              ('.' in symbol || IsDigits(symbol)) && Decode(symbol).Success?
    ensures Decode(symbol) == Success(Rest) <==> IsRestMarker(symbol)
    ensures Decode(symbol) == Success(Note(symbol)) <==>
              '.' !in symbol && !IsDigits(symbol) && !IsRestMarker(symbol)
  {
    if IsRestMarker(symbol) {
      assert !IsDigit(symbol[0]);
    }
  }

  /** The chord token for a list of pitch numbers: `".".join(str(p) for p in pitches)`. */
  function ChordSymbol(pitches: seq<nat>): string
    requires |pitches| > 0
  {
    Join(seq(|pitches|, k requires 0 <= k < |pitches| => ShowNat(pitches[k])), '.')
  }

  /** A chord token decodes back to a chord of exactly its pitches, a one-pitch token included. */
  lemma ChordSymbolRoundTrip(pitches: seq<nat>)
    requires |pitches| > 0
    ensures Decode(ChordSymbol(pitches)) == Success(Chord(pitches))
  {
    var tokens := seq(|pitches|, k requires 0 <= k < |pitches| => ShowNat(pitches[k]));
    var symbol := ChordSymbol(pitches);
    forall k | 0 <= k < |tokens| ensures '.' !in tokens[k] && ParseInt(tokens[k]) == Success(pitches[k]) {
      ParseShowNat(pitches[k]);
      assert IsDigits(tokens[k]) && !IsDigit('.');
    }
    SplitJoin(tokens, '.');
    if |pitches| == 1 {
      assert symbol == tokens[0];
    }
    assert '.' in symbol || IsDigits(symbol);
    var parsed := ParseAll(tokens);
    assert parsed.value == pitches;
  }

  /** The decimal spellings of the three pitches of the C major chord. */
  lemma ChordExampleTokens()
    ensures seq(3, k requires 0 <= k < 3 => ShowNat([60, 64, 67][k])) == ["60", "64", "67"]
  {
    assert ShowNat(60) == "60" && ShowNat(64) == "64" && ShowNat(67) == "67";
  }

  /** Joining the three spellings with dots gives "60.64.67". */
  lemma ChordExampleJoin()
    ensures Join(["60", "64", "67"], '.') == "60.64.67"
  {
    assert ["64", "67"][1..] == ["67"];
    assert Join(["64", "67"], '.') == "64.67";
    assert ["60", "64", "67"][1..] == ["64", "67"];
  }

  /** The token "60.64.67" is the C major chord on pitches 60, 64 and 67. */
  lemma ChordExample()
    ensures Decode("60.64.67") == Success(Chord([60, 64, 67]))
  {
    ChordSymbolRoundTrip([60, 64, 67]);
    ChordExampleTokens();
    ChordExampleJoin();
  }

  /** Both spellings of the rest marker decode to a rest. */
  lemma RestExample()
    ensures Decode("R") == Success(Rest) && Decode("r") == Success(Rest)
  {
    DecodeKinds("R");
    DecodeKinds("r");
  }

  /** The total duration of `events`, in sixteenths. */
  function Elapsed(events: seq<Event>): (e: nat)
    ensures |events| <= e <= 8 * |events|
  {
    if events == [] then 0
    else Elapsed(events[..|events| - 1]) + Sixteenths(events[|events| - 1].noteType)
  }

  /**
    Event `i` of `events` is symbol `i` decoded, with the drawn duration
    class `draws[i]` (a sixteenth for a rest), placed at the total duration
    of the events before it.
  */
  ghost predicate EventAt(symbols: seq<string>, draws: seq<NoteType>, events: seq<Event>, i: nat)
  {
    && i < |events| && i < |symbols| && i < |draws|
    && Decode(symbols[i]) == Success(events[i].element)
    && events[i].noteType == (if events[i].element.Rest? then Sixteenth else draws[i])
    && events[i].offset == Elapsed(events[..i])
  }

  /** `events` is the timeline `create_midi` builds: one event per symbol, in symbol order. */
  ghost predicate IsTimeline(symbols: seq<string>, draws: seq<NoteType>, events: seq<Event>)
  {
    && |events| == |symbols|
    && |draws| == |symbols|
    && forall i: nat :: i < |events| ==> EventAt(symbols, draws, events, i)
  }

  /** Each event starts where the previous one ends. */
  lemma OffsetsAdvanceByDuration(symbols: seq<string>, draws: seq<NoteType>, events: seq<Event>)
    requires IsTimeline(symbols, draws, events)
    ensures forall i :: 0 <= i < |events| - 1 ==>
              events[i + 1].offset == events[i].offset + Sixteenths(events[i].noteType)
  {
    forall i | 0 <= i < |events| - 1
      ensures events[i + 1].offset == events[i].offset + Sixteenths(events[i].noteType)
    {
      assert EventAt(symbols, draws, events, i);
      assert EventAt(symbols, draws, events, i + 1);
      assert events[..i + 1][..i] == events[..i];
    }
  }

  lemma {:induction false} ElapsedGrows(events: seq<Event>, i: nat, j: nat)
    requires i < j <= |events|
    ensures Elapsed(events[..i]) < Elapsed(events[..j])
    decreases j - i
  {
    assert events[..j][..j - 1] == events[..j - 1];
    if i < j - 1 {
      ElapsedGrows(events, i, j - 1);
    }
  }

  /** Offsets strictly increase along the timeline, so no two events overlap. */
  lemma OffsetsIncrease(symbols: seq<string>, draws: seq<NoteType>, events: seq<Event>)
    requires IsTimeline(symbols, draws, events)
    ensures forall i, j :: 0 <= i < j < |events| ==> events[i].offset < events[j].offset
  {
    forall i, j | 0 <= i < j < |events| ensures events[i].offset < events[j].offset {
      assert EventAt(symbols, draws, events, i);
      assert EventAt(symbols, draws, events, j);
      ElapsedGrows(events, i, j);
    }
  }

  /** A rest symbol always yields a sixteenth rest, whatever duration was drawn for it. */
  lemma RestsLastASixteenth(symbols: seq<string>, draws: seq<NoteType>, events: seq<Event>)
    requires IsTimeline(symbols, draws, events)
    ensures forall i :: 0 <= i < |events| && IsRestMarker(symbols[i]) ==>
              events[i].element == Rest && events[i].noteType == Sixteenth
  {
    forall i | 0 <= i < |events| && IsRestMarker(symbols[i])
      ensures events[i].element == Rest && events[i].noteType == Sixteenth
    {
      assert EventAt(symbols, draws, events, i);
      DecodeKinds(symbols[i]);
    }
  }

  /** The inner loop of `create_midi` over `notes_in_chord`: `int(current_note)` for each token. */
  method ChordNotes(notesInChord: seq<string>) returns (r: Result<seq<int>>)
    ensures r == ParseAll(notesInChord)
  {
    var notes: seq<int> := [];
    for k := 0 to |notesInChord|
      invariant ParseAll(notesInChord[..k]) == Success(notes)
    {
      var newNote := ParseInt(notesInChord[k]);
      assert notesInChord[..k + 1][..k] == notesInChord[..k];
      if newNote.Failure? {
        ParseAllFailurePersists(notesInChord, k + 1);
        return Failure(newNote.error);
      }
      notes := notes + [newNote.value];
    }
    assert notesInChord[..|notesInChord|] == notesInChord;
    r := Success(notes);
  }

  /**
    `create_midi(prediction_output)` with the duration class drawn for each
    symbol passed in as `draws`. It fails exactly when some symbol has a
    chord token `int` rejects; otherwise it returns the timeline.
  */
  method CreateMidi(predictionOutput: seq<string>, draws: seq<NoteType>) returns (r: Result<seq<Event>>)
    requires |draws| == |predictionOutput|
    ensures r.Success? <==> forall i :: 0 <= i < |predictionOutput| ==> Decode(predictionOutput[i]).Success?
    ensures r.Success? ==> IsTimeline(predictionOutput, draws, r.value)
    ensures r.Failure? ==>
      exists i :: 0 <= i < |predictionOutput| && Decode(predictionOutput[i]) == Failure(r.error) &&
        forall j :: 0 <= j < i ==> Decode(predictionOutput[j]).Success?
  {
    var offset: nat := 0;
    var outputNotes: seq<Event> := [];
    for i := 0 to |predictionOutput|
      invariant |outputNotes| == i
      invariant offset == Elapsed(outputNotes)
      invariant forall j: nat :: j < i ==> EventAt(predictionOutput, draws, outputNotes, j)
    {
      var pattern := predictionOutput[i];
      var currType := draws[i];
      var event: Event;
      if '.' in pattern || IsDigits(pattern) {
        var notes := ChordNotes(Split(pattern, '.'));
        if notes.Failure? {
          forall j | 0 <= j < i ensures Decode(predictionOutput[j]).Success? {
            assert EventAt(predictionOutput, draws, outputNotes, j);
          }
          return Failure(notes.error);
        }
        event := Event(Chord(notes.value), currType, offset);
      } else if IsRestMarker(pattern) {
        currType := Sixteenth;
        event := Event(Rest, currType, offset);
      } else {
        event := Event(Note(pattern), currType, offset);
      }
      ghost var before := outputNotes;
      outputNotes := outputNotes + [event];
      assert outputNotes[..i] == before;
      forall j: nat | j < i ensures EventAt(predictionOutput, draws, outputNotes, j) {
        assert EventAt(predictionOutput, draws, before, j);
        assert outputNotes[..j] == before[..j];
      }
      assert EventAt(predictionOutput, draws, outputNotes, i);
      offset := offset + Sixteenths(currType);
    }
    forall j: nat | j < |predictionOutput| ensures Decode(predictionOutput[j]).Success? {
      assert EventAt(predictionOutput, draws, outputNotes, j);
    }
    r := Success(outputNotes);
  }
}
