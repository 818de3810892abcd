/** The hint types: one variant today, the hint that reveals a letter. */
module Hints {
  import opened Dicts

  /** `GiveALetterHint(letter)`: the constructor keeps the letter as given. */
  datatype Hint = GiveALetterHint(letter: string)

  /** `self.__class__.__name__`. */
  function ClassName(h: Hint): string {
    match h
    case GiveALetterHint(_) => "GiveALetterHint"
  }

  /** `self.__dict__`: the attributes the constructor assigned. */
  function Attributes(h: Hint): Dict<string, string> {
    [("letter", h.letter)]
  }

  /**
   * `HintBase.to_json`: the attributes, then `type` carrying the class name.
   * Being a value, the hint is left as it was.
   */
  function ToJson(h: Hint): (r: Dict<string, string>)
    ensures r == [("letter", h.letter), ("type", ClassName(h))]
    ensures DistinctKeys(r)
  {
    var attrs, tag := Attributes(h), [("type", ClassName(h))];
    assert Keys(attrs) == ["letter"] && Keys(attrs + tag) == ["letter", "type"];
    assert Union(attrs, tag) == Union(attrs + tag, []);
    Union(attrs, tag)
  }

  /** Letters of a hint list, in order. */
  function LettersOf(hs: seq<Hint>): (ls: seq<string>)
    ensures |ls| == |hs| && forall i :: 0 <= i < |hs| ==> ls[i] == hs[i].letter
  {
    if hs == [] then [] else [hs[0].letter] + LettersOf(hs[1..])
  }

  /** `[GiveALetterHint(letter) for letter in letters]`, each character a one-letter string. */
  function HintsFor(letters: string): (hs: seq<Hint>)
    ensures |hs| == |letters|
    ensures forall i :: 0 <= i < |letters| ==> hs[i] == GiveALetterHint([letters[i]])
  {
    seq(|letters|, i requires 0 <= i < |letters| => GiveALetterHint([letters[i]]))
  }
}
