/**
 * The `Operations` flag set that tells the machining which holes to make.
 * The enum values are bit masks; a selection is checked with bitwise and.
 */
module Operations {

  /** A selection of operations; only the three low bits are ever defined. */
  type Flags = bv8

  const PTH: Flags := 1
  const NPTH: Flags := 2
  const OUTLINE: Flags := 4

  /** `FIRST` is an alias of `PTH`. */
  const FIRST: Flags := PTH
  const FINAL: Flags := NPTH | OUTLINE
  const ALL: Flags := FIRST | FINAL

  /** True when the selection `ops` includes `flag` (Python: `ops & flag` is truthy). */
  predicate Selects(ops: Flags, flag: Flags) {
    ops & flag != 0
  }

  /** Each basic flag is a single bit, and the three bits are distinct. */
  lemma BasicFlagsAreDistinctBits()
    ensures PTH == 1 && NPTH == 2 && OUTLINE == 4
    ensures PTH & NPTH == 0 && PTH & OUTLINE == 0 && NPTH & OUTLINE == 0
  {
  }

  /** The combined flags: FIRST is PTH, FINAL is NPTH|OUTLINE, ALL is 7 and holds every flag. */
  lemma CombinedFlags()
    ensures FIRST == PTH
    ensures FINAL == NPTH | OUTLINE && FINAL == 6
    ensures ALL == 7
    ensures ALL & PTH == PTH && ALL & NPTH == NPTH && ALL & OUTLINE == OUTLINE
    ensures ALL & FIRST == FIRST && ALL & FINAL == FINAL
  {
  }

  /** Selecting by ALL picks every non-empty flag; selecting by FIRST never picks NPTH or OUTLINE. */
  lemma SelectionByMasks(f: Flags)
    ensures f != 0 && f & ALL == f ==> Selects(ALL, f)
    ensures !Selects(FIRST, NPTH) && !Selects(FIRST, OUTLINE)
    ensures Selects(FINAL, NPTH) && Selects(FINAL, OUTLINE) && !Selects(FINAL, PTH)
  {
  }
}
