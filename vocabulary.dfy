/**
  The vocabulary of the generator: the distinct symbols of the corpus in
  ascending string order (`pitch_names`), their number (`n_vocab`), and the
  two dictionaries between symbols and ids (`note_to_int`, `int_to_note`).
*/
module Vocabulary {

  /** Python's `<` on `str`: code points compared left to right, a proper prefix being smaller. */
  predicate Less(a: string, b: string)
    ensures Less(a, b) ==> a != b
    ensures |a| < |b| && a == b[..|a|] ==> Less(a, b)
  {
    if |a| == 0 then |b| > 0
    else if |b| == 0 then false
    else
      assert |a| < |b| && a == b[..|a|] ==> a[1..] == b[1..][..|a| - 1];
      a[0] < b[0] || (a[0] == b[0] && Less(a[1..], b[1..]))
  }

  lemma {:induction false} LessIrreflexive(a: string)
    ensures !Less(a, a)
  {
    if |a| > 0 {
      LessIrreflexive(a[1..]);
    }
  }

  lemma {:induction false} LessTransitive(a: string, b: string, c: string)
    requires Less(a, b) && Less(b, c)
    ensures Less(a, c)
  {
    if |a| > 0 && a[0] == b[0] && b[0] == c[0] {
      LessTransitive(a[1..], b[1..], c[1..]);
    }
  }

  lemma {:induction false} LessTotal(a: string, b: string)
    ensures a == b || Less(a, b) || Less(b, a)
  {
    if |a| > 0 && |b| > 0 && a[0] == b[0] {
      LessTotal(a[1..], b[1..]);
      if a[1..] == b[1..] {
        assert a == [a[0]] + a[1..] && b == [b[0]] + b[1..];
      }
    }
  }

  /** Ascending and free of duplicates, as `sorted(set(...))` returns. */
  ghost predicate StrictlySorted(s: seq<string>)
  {
    forall i, j :: 0 <= i < j < |s| ==> Less(s[i], s[j])
  }

  lemma StrictlySortedDistinct(s: seq<string>, i: nat, j: nat)
    requires StrictlySorted(s) && i < |s| && j < |s| && s[i] == s[j]
    ensures i == j
  {
    LessIrreflexive(s[i]);
  }

  lemma BelowHead(x: string, s: seq<string>)
    requires StrictlySorted(s) && |s| > 0 && Less(x, s[0])
    ensures forall j :: 0 <= j < |s| ==> Less(x, s[j])
  {
    forall j | 1 <= j < |s| ensures Less(x, s[j]) {
      LessTransitive(x, s[0], s[j]);
    }
  }

  /** Adds `x` to a sorted duplicate-free list at its place, unless it is already there. */
  function Insert(s: seq<string>, x: string): (r: seq<string>)
    requires StrictlySorted(s)
    ensures StrictlySorted(r)
    ensures forall y :: y in r <==> y in s || y == x
  {
    if s == [] then [x]
    else if x == s[0] then s
    else if Less(x, s[0]) then
      BelowHead(x, s);
      [x] + s
    else
      LessTotal(x, s[0]);
      var rest := Insert(s[1..], x);
      assert forall j :: 0 <= j < |rest| ==> Less(s[0], rest[j]) by {
        forall j | 0 <= j < |rest| ensures Less(s[0], rest[j]) {
          if rest[j] != x {
            assert rest[j] in s[1..];
            var k :| 0 <= k < |s[1..]| && s[1..][k] == rest[j];
            assert s[k + 1] == rest[j];
          }
        }
      }
      [s[0]] + rest
  }

  /** `pitch_names = sorted(set(item for item in notes))` */
  function PitchNames(notes: seq<string>): (names: seq<string>)
    ensures StrictlySorted(names)
    ensures forall s :: s in names <==> s in notes
  {
    if notes == [] then []
    else
      var last := |notes| - 1;
      assert notes == notes[..last] + [notes[last]];
      Insert(PitchNames(notes[..last]), notes[last])
  }

  /** `n_vocab = len(set(notes))` */
  function VocabSize(notes: seq<string>): (v: nat)
    ensures v <= |notes|
    ensures v > 0 <==> |notes| > 0
  {
    SymbolSetBound(notes);
    |set s | s in notes|
  }

  /** A list has at least one and at most as many distinct symbols as entries. */
  lemma {:induction false} SymbolSetBound(notes: seq<string>)
    ensures |set s | s in notes| <= |notes|
    ensures notes != [] ==> |set s | s in notes| > 0
  {
    if notes != [] {
      SymbolSetBound(notes[1..]);
      assert (set s | s in notes) == {notes[0]} + (set s | s in notes[1..]);
    }
  }

  lemma {:induction false} DistinctCount(s: seq<string>)
    requires StrictlySorted(s)
    ensures |set x | x in s| == |s|
  {
    if s != [] {
      DistinctCount(s[1..]);
      LessIrreflexive(s[0]);
      assert s[0] !in s[1..];
      assert (set x | x in s) == {s[0]} + (set x | x in s[1..]);
    }
  }

  /** The vocabulary has exactly `n_vocab` entries. */
  lemma PitchNamesCount(notes: seq<string>)
    ensures |PitchNames(notes)| == VocabSize(notes)
  {
    var names := PitchNames(notes);
    DistinctCount(names);
    assert (set x | x in names) == (set x | x in notes);
  }

  /** A sorted duplicate-free list is determined by its elements. */
  lemma {:induction false} SortedSetUnique(a: seq<string>, b: seq<string>)
    requires StrictlySorted(a) && StrictlySorted(b)
    requires forall s :: s in a <==> s in b
    ensures a == b
  {
    assert b != [] ==> b[0] in a;
    if a != [] {
      assert a[0] in b;
      var i :| 0 <= i < |a| && a[i] == b[0];
      var j :| 0 <= j < |b| && b[j] == a[0];
      if i != 0 {
        assert Less(a[0], b[0]);
        if j != 0 {
          LessTransitive(a[0], b[0], a[0]);
        }
        LessIrreflexive(a[0]);
      }
      assert a[0] == b[0];
      forall s ensures s in a[1..] <==> s in b[1..] {
        if s in a[1..] {
          var k :| 0 <= k < |a[1..]| && a[1..][k] == s;
          assert Less(a[0], a[k + 1]);
          LessIrreflexive(a[0]);
          assert s in b;
        }
        if s in b[1..] {
          var k :| 0 <= k < |b[1..]| && b[1..][k] == s;
          assert Less(b[0], b[k + 1]);
          LessIrreflexive(b[0]);
          assert s in a;
        }
      }
      SortedSetUnique(a[1..], b[1..]);
      assert a == [a[0]] + a[1..] && b == [b[0]] + b[1..];
    }
  }

  /**
    The vocabulary depends only on which symbols occur in the corpus, not on
    their order or multiplicity, so training and generation on the same
    corpus agree on every id.
  */
  lemma PitchNamesDependOnlyOnSymbols(a: seq<string>, b: seq<string>)
    requires forall s :: s in a <==> s in b
    ensures PitchNames(a) == PitchNames(b)
  {
    SortedSetUnique(PitchNames(a), PitchNames(b));
  }

  /** `dict((note, number) for number, note in enumerate(pitch_names))`; a later duplicate overwrites an earlier one. */
  function NoteToInt(names: seq<string>): (m: map<string, nat>)
    ensures forall s :: s in m <==> s in names
    ensures forall s :: s in m ==> m[s] < |names| && names[m[s]] == s
  {
    if names == [] then map[]
    else
      var last := |names| - 1;
      assert names == names[..last] + [names[last]];
      NoteToInt(names[..last])[names[last] := last]
  }

  /** `dict((number, note) for number, note in enumerate(pitch_names))` */
  function IntToNote(names: seq<string>): (m: map<nat, string>)
    ensures forall i: nat :: i in m <==> i < |names|
    ensures forall i :: i in m ==> m[i] in names
  {
    var m := map i: nat | i < |names| :: names[i];
    assert forall i :: 0 <= i < |names| ==> i in m && m[i] == names[i];
    m
  }

  /** Looking a symbol's id up in `int_to_note` gives the symbol back. */
  lemma DecodeEncode(names: seq<string>, s: string)
    requires s in names
    ensures NoteToInt(names)[s] in IntToNote(names)
    ensures IntToNote(names)[NoteToInt(names)[s]] == s
  {
  }

  /** On a duplicate-free vocabulary, looking an id's symbol up in `note_to_int` gives the id back. */
  lemma EncodeDecode(names: seq<string>, i: nat)
    requires StrictlySorted(names) && i < |names|
    ensures IntToNote(names)[i] in NoteToInt(names)
    ensures NoteToInt(names)[IntToNote(names)[i]] == i
  {
    var m := NoteToInt(names);
    assert names[i] in names;
    StrictlySortedDistinct(names, m[names[i]], i);
  }
}
