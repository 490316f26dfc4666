/**
 The two-bit-per-entry bitmap: sixteen entries share a 32-bit word, and every update
 replaces a whole word.

 An entry is 0 (empty), BEING_SET (a writer owns it), VALID, or both (a remover owns it).
 */
module Bit2Map {

  const VALID: bv32 := 1
  const BEING_SET: bv32 := 2
  const OWNED: bv32 := 3

  const PER_WORD: nat := 16

  /** Position of an entry inside its word. */
  function Shift(e: nat): (s: bv32)
    ensures s < 32 && s & 1 == 0
  {
    var k := e % PER_WORD;
    if k < 8 then
      if k < 4 then if k < 2 then if k == 0 then 0 else 2 else if k == 2 then 4 else 6
      else if k < 6 then if k == 4 then 8 else 10 else if k == 6 then 12 else 14
    else
      if k < 12 then if k < 10 then if k == 8 then 16 else 18 else if k == 10 then 20 else 22
      else if k < 14 then if k == 12 then 24 else 26 else if k == 14 then 28 else 30
  }

  lemma ShiftInjective(e: nat, f: nat)
    requires e % PER_WORD != f % PER_WORD
    ensures Shift(e) != Shift(f)
  {
  }

  function Lane(word: bv32, s: bv32): (entry: bv32)
    requires s < 32
    ensures entry <= 3
  {
    (word >> s) & 3
  }

  function Entry(words: seq<bv32>, e: nat): (entry: bv32)
    requires e / PER_WORD < |words|
  {
    Lane(words[e / PER_WORD], Shift(e))
  }

  /** BeginModify marks an empty entry BEING_SET. */
  function Acquired(word: bv32, s: bv32): (w: bv32)
    requires s < 32
  {
    word | (BEING_SET << s)
  }

  /** CommitModify and IgnoreRemove leave the entry VALID and no longer BEING_SET. */
  function Committed(word: bv32, s: bv32): (w: bv32)
    requires s < 32
  {
    (word | (VALID << s)) & !(BEING_SET << s)
  }

  /** BeginRemove marks a VALID entry as owned by a remover. */
  function Seized(word: bv32, s: bv32): (w: bv32)
    requires s < 32
  {
    word | ((VALID | BEING_SET) << s)
  }

  /** CommitRemove empties the entry. */
  function Cleared(word: bv32, s: bv32): (w: bv32)
    requires s < 32
  {
    word & !((BEING_SET | VALID) << s)
  }

  /** What each update does to the entry it is for. */
  lemma UpdatesOwnLane(word: bv32, s: bv32)
    requires s < 32 && s & 1 == 0
    ensures Lane(word, s) == 0 ==> Lane(Acquired(word, s), s) == BEING_SET
    ensures Lane(Committed(word, s), s) == VALID
    ensures Lane(Seized(word, s), s) == OWNED
    ensures Lane(Cleared(word, s), s) == 0
  {
  }

  /** BeginModify's test: neither bit is set. */
  predicate TestEmpty(word: bv32, s: bv32)
    requires s < 32
  {
    word & ((VALID | BEING_SET) << s) == 0
  }

  /** BeginRemove's test: VALID and not BEING_SET. */
  predicate TestRemovable(word: bv32, s: bv32)
    requires s < 32
  {
    word & (VALID << s) != 0 && word & (BEING_SET << s) == 0
  }

  /** IsSet(VALID). */
  predicate TestValid(word: bv32, s: bv32)
    requires s < 32
  {
    word & (VALID << s) != 0
  }

  lemma TestEmptyReadsLane(word: bv32, s: bv32)
    requires s < 32 && s & 1 == 0
    ensures TestEmpty(word, s) <==> Lane(word, s) == 0
  {
  }

  lemma TestRemovableReadsLane(word: bv32, s: bv32)
    requires s < 32 && s & 1 == 0
    ensures TestRemovable(word, s) <==> Lane(word, s) == VALID
  {
  }

  lemma TestValidReadsLane(word: bv32, s: bv32)
    requires s < 32 && s & 1 == 0
    ensures TestValid(word, s) <==> Lane(word, s) == VALID || Lane(word, s) == OWNED
  {
  }

  // The other fifteen entries of the word stay as they are.

  ghost predicate Apart(s: bv32, r: bv32) {
    s < 32 && s & 1 == 0 && r < 32 && r & 1 == 0 && r != s
  }

  lemma AcquiredKeeps(word: bv32, s: bv32, r: bv32)
    requires Apart(s, r)
    ensures Lane(Acquired(word, s), r) == Lane(word, r)
  {
  }

  lemma SeizedKeeps(word: bv32, s: bv32, r: bv32)
    requires Apart(s, r)
    ensures Lane(Seized(word, s), r) == Lane(word, r)
  {
  }

  lemma ClearedKeeps(word: bv32, s: bv32, r: bv32)
    requires Apart(s, r)
    ensures Lane(Cleared(word, s), r) == Lane(word, r)
  {
  }

  lemma CommittedKeeps(word: bv32, s: bv32, r: bv32)
    requires Apart(s, r)
    ensures Lane(Committed(word, s), r) == Lane(word, r)
  {
  }

  /** The words that a single update of entry e can produce. */
  predicate IsUpdate(word: bv32, w: bv32, s: bv32)
    requires s < 32
  {
    w == Acquired(word, s) || w == Committed(word, s) || w == Seized(word, s) || w == Cleared(word, s)
  }

  lemma UpdateKeepsOthers(words: seq<bv32>, e: nat, w: bv32, f: nat)
    requires e / PER_WORD < |words| && f / PER_WORD < |words| && e != f
    requires IsUpdate(words[e / PER_WORD], w, Shift(e))
    ensures Entry(words[e / PER_WORD := w], f) == Entry(words, f)
  {
    if e / PER_WORD == f / PER_WORD {
      ShiftInjective(e, f);
      var word, s, r := words[e / PER_WORD], Shift(e), Shift(f);
      if w == Acquired(word, s) {
        AcquiredKeeps(word, s, r);
      } else if w == Committed(word, s) {
        CommittedKeeps(word, s, r);
      } else if w == Seized(word, s) {
        SeizedKeeps(word, s, r);
      } else {
        ClearedKeeps(word, s, r);
      }
    }
  }
}
