/** The special symbols a text leaves free: the symbols from a fixed set of
    twelve that do not occur anywhere in the text. */
module Symbols {
  /** The twelve candidate symbols. */
  const PossibleSpecialSymbols: set<char> :=
    {'@', '#', '$', '%', '^', '&', '*', '-', '_', '~', '¶', '|'}

  /** The characters occurring in a text. */
  function CharsOf(text: string): set<char>
  {
    set i | 0 <= i < |text| :: text[i]
  }

  /** `_get_special_symbols`: the candidate symbols the text does not use.
      The source returns them as a list in unspecified order; the model keeps the set. */
  function SpecialSymbols(usedText: string): (r: set<char>)
    ensures forall c :: c in r <==> c in PossibleSpecialSymbols && c !in usedText
  {
    PossibleSpecialSymbols - CharsOf(usedText)
  }

  /** The free symbols and the symbols the text uses split the twelve candidates
      between them: any free symbol can serve as a marker that never clashes with
      the text. A text using none of them leaves all twelve free; a text using all
      of them leaves none. */
  lemma SpecialSymbolsPartition(usedText: string)
    ensures var r := SpecialSymbols(usedText);
      var used := set c | c in PossibleSpecialSymbols && c in usedText;
      r !! used && r + used == PossibleSpecialSymbols && |r| + |used| == 12
    ensures (forall c :: c in PossibleSpecialSymbols ==> c !in usedText) ==>
      SpecialSymbols(usedText) == PossibleSpecialSymbols
    ensures PossibleSpecialSymbols <= CharsOf(usedText) ==> SpecialSymbols(usedText) == {}
  {
    var r := SpecialSymbols(usedText);
    var used := set c | c in PossibleSpecialSymbols && c in usedText;
    assert |PossibleSpecialSymbols| == 12;
    assert r + used == PossibleSpecialSymbols;
    assert r !! used;
  }
}
