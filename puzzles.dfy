/**
 * The eight cryptogram puzzle variants: what each constructor encrypts, the
 * label it fixes, the attributes it assigns, the shared base constructor
 * that builds the cipher map and the hints, and the `from_json` of each
 * variant, which reads a storage record back into a constructor call.
 */
module Puzzles {
  import opened Wrappers
  import opened Seqs
  import opened Text
  import opened PyValues
  import opened Dicts
  import opened Hints
  import opened Shuffle
  import opened LetterMap

  /** The eight subclasses of `CryptographBase`. */
  datatype Kind =
    | ListPuzzle
    | CharacterQuote
    | FamousDocumentQuote
    | DirectQuote
    | GeneralPhrase
    | SongLyrics
    | Riddle
    | RiddleSolvedInReverse

  /** `cls.__name__`. */
  function Name(k: Kind): string {
    match k
    case ListPuzzle => "ListPuzzle"
    case CharacterQuote => "CharacterQuote"
    case FamousDocumentQuote => "FamousDocumentQuote"
    case DirectQuote => "DirectQuote"
    case GeneralPhrase => "GeneralPhrase"
    case SongLyrics => "SongLyrics"
    case Riddle => "Riddle"
    case RiddleSolvedInReverse => "RiddleSolvedInReverse"
  }

  /**
   * A call of one of the eight constructors, with its arguments as the
   * signatures name them (`DirectQuote`'s optional `date` is `dateOrNone`).
   * `used` is the bool a caller passes, or the text a record carried.
   */
  datatype Ctor =
    | NewListPuzzle(setup: string, elements: seq<string>, used: PyVal)
    | NewCharacterQuote(quote: string, sourceType: string, characterName: string, source: string,
                        date: string, used: PyVal)
    | NewFamousDocumentQuote(quote: string, source: string, author: string, date: string, used: PyVal)
    | NewDirectQuote(quote: string, author: string, dateOrNone: Option<string>, used: PyVal)
    | NewGeneralPhrase(phrase: string, used: PyVal)
    | NewSongLyrics(lyrics: string, artist: string, title: string, date: string, used: PyVal)
    | NewRiddle(question: string, answer: string, used: PyVal)
    | NewRiddleSolvedInReverse(question: string, answer: string, used: PyVal)

  function KindOf(c: Ctor): Kind {
    match c
    case NewListPuzzle(_, _, _) => ListPuzzle
    case NewCharacterQuote(_, _, _, _, _, _) => CharacterQuote
    case NewFamousDocumentQuote(_, _, _, _, _) => FamousDocumentQuote
    case NewDirectQuote(_, _, _, _) => DirectQuote
    case NewGeneralPhrase(_, _) => GeneralPhrase
    case NewSongLyrics(_, _, _, _, _) => SongLyrics
    case NewRiddle(_, _, _) => Riddle
    case NewRiddleSolvedInReverse(_, _, _) => RiddleSolvedInReverse
  }

  /** The argument each variant passes to the base constructor as `string_to_encrypt`. */
  function TextOf(c: Ctor): string {
    match c
    case NewListPuzzle(_, elements, _) => Join(elements)
    case NewCharacterQuote(quote, _, _, _, _, _) => quote
    case NewFamousDocumentQuote(quote, _, _, _, _) => quote
    case NewDirectQuote(quote, _, _, _) => quote
    case NewGeneralPhrase(phrase, _) => phrase
    case NewSongLyrics(lyrics, _, _, _, _) => lyrics
    case NewRiddle(_, answer, _) => answer
    case NewRiddleSolvedInReverse(question, _, _) => question
  }

  /** The `puzzle_type` label each variant fixes. */
  function LabelOf(c: Ctor): string {
    match c
    case NewListPuzzle(_, _, _) => "list"
    case NewCharacterQuote(_, sourceType, _, _, _, _) => sourceType + " Quote"
    case NewFamousDocumentQuote(_, _, _, _, _) => "Famous Document"
    case NewDirectQuote(_, _, _, _) => "Direct Quote"
    case NewGeneralPhrase(_, _) => "General Quote"
    case NewSongLyrics(_, _, _, _, _) => "Song lyrics"
    case NewRiddle(_, _, _) => "Riddle"
    case NewRiddleSolvedInReverse(_, _, _) => "Reverse Riddle"
  }

  /** The attribute names each variant assigns after the base constructor, in order. */
  function FieldNames(k: Kind): seq<string> {
    match k
    case ListPuzzle => ["setup"]
    case CharacterQuote => ["character_name", "source", "date"]
    case FamousDocumentQuote => ["source", "author", "date"]
    case DirectQuote => ["author", "date"]
    case GeneralPhrase => []
    case SongLyrics => ["artist", "title", "date"]
    case Riddle => ["question"]
    case RiddleSolvedInReverse => ["answer"]
  }

  function OptionalText(o: Option<string>): PyVal {
    match o
    case None => PNone
    case Some(s) => PStr(s)
  }

  /** Those attributes with the values the constructor assigns them. */
  function FieldsOf(c: Ctor): (fs: Dict<string, PyVal>)
    ensures Keys(fs) == FieldNames(KindOf(c))
  {
    match c
    case NewListPuzzle(setup, _, _) => [("setup", PStr(setup))]
    case NewCharacterQuote(_, _, characterName, source, date, _) =>
      [("character_name", PStr(characterName)), ("source", PStr(source)), ("date", PStr(date))]
    case NewFamousDocumentQuote(_, source, author, date, _) =>
      [("source", PStr(source)), ("author", PStr(author)), ("date", PStr(date))]
    case NewDirectQuote(_, author, dateOrNone, _) =>
      [("author", PStr(author)), ("date", OptionalText(dateOrNone))]
    case NewGeneralPhrase(_, _) => []
    case NewSongLyrics(_, artist, title, date, _) =>
      [("artist", PStr(artist)), ("title", PStr(title)), ("date", PStr(date))]
    case NewRiddle(question, _, _) => [("question", PStr(question))]
    case NewRiddleSolvedInReverse(_, answer, _) => [("answer", PStr(answer))]
  }

  /**
   * What the runtime chooses during construction: the iteration order of the
   * letter set, the positions `random.sample` picks, the draws of `random.shuffle`.
   */
  datatype Draws = Draws(letterOrder: seq<char>, iconPicks: seq<nat>, swaps: seq<nat>)

  predicate ValidDraws(s: string, icons: seq<string>, d: Draws) {
    && IsEnumeration(d.letterOrder, LetterSet(s))
    && (|icons| >= 26 ==> IsSample(d.iconPicks, |icons|, 26))
    && FitsShuffle(d.swaps, |Letters(s)|)
  }

  /** The attributes `CryptographBase.__init__` assigns. */
  datatype Base = Base(stringToEncrypt: string, puzzleType: string, encryptionMap: Dict<char, string>,
                       hints: seq<Hint>, used: PyVal)

  /** A puzzle object: its class, the base attributes, then the variant's own attributes. */
  datatype Puzzle = Puzzle(kind: Kind, base: Base, fields: Dict<string, PyVal>)

  /** The hints a fresh puzzle adds: one per letter occurrence, in shuffled order. */
  function FreshHints(s: string, swaps: seq<nat>): (hs: seq<Hint>)
    requires FitsShuffle(swaps, |Letters(s)|)
    ensures |hs| == |Letters(s)| && multiset(hs) == multiset(HintsFor(Letters(s)))
  {
    Shuffled(HintsFor(Letters(s)), swaps)
  }

  lemma HintsForSwap(s: string, i: nat, j: nat)
    requires i < |s| && j < |s|
    ensures HintsFor(Swap(s, i, j)) == Swap(HintsFor(s), i, j)
  {
    var t, hs := Swap(s, i, j), HintsFor(s);
    var a, b := HintsFor(t), Swap(hs, i, j);
    assert t == s[i := s[j]][j := s[i]];
    assert b == hs[i := hs[j]][j := hs[i]];
    assert |a| == |b|;
    forall k | 0 <= k < |s| ensures a[k] == b[k] {
      if k == j {
        assert t[k] == s[i] && b[k] == hs[i];
      } else if k == i {
        assert t[k] == s[j] && b[k] == hs[j];
      } else {
        assert t[k] == s[k] && b[k] == hs[k];
      }
    }
  }

  /** The hints made from `letters` are exactly the one-letter hints of its characters. */
  lemma HintsForMember(letters: string, h: Hint)
    ensures h in HintsFor(letters) <==> |h.letter| == 1 && h.letter[0] in letters
  {
    if |h.letter| == 1 && h.letter[0] in letters {
      var i :| 0 <= i < |letters| && letters[i] == h.letter[0];
      assert h.letter == [letters[i]];
      assert HintsFor(letters)[i] == h;
    }
  }

  /** Making the hints and then shuffling them is shuffling the letters and then making the hints. */
  lemma {:induction false} HintsForSteps(s: string, swaps: seq<nat>, k: nat)
    requires k <= |s| && FitsShuffle(swaps, |s|)
    ensures HintsFor(Steps(s, swaps, k)) == Steps(HintsFor(s), swaps, k)
    decreases k
  {
    if k > 1 {
      HintsForSwap(s, k - 1, swaps[k - 1]);
      HintsForSteps(Swap(s, k - 1, swaps[k - 1]), swaps, k - 1);
    }
  }

  /** The letter list of the text, shuffled in place, then one hint per entry. */
  method MakeFreshHints(s: string, swaps: seq<nat>) returns (hs: seq<Hint>)
    requires FitsShuffle(swaps, |Letters(s)|)
    ensures hs == FreshHints(s, swaps)
  {
    var letters := Letters(s);
    var shuffled := ShuffleCopy(letters, swaps);
    HintsForSteps(letters, swaps, |letters|);
    hs := HintsFor(shuffled);
  }

  /**
   * `CryptographBase.__init__`: the cipher map of the text, then the supplied
   * hints followed by one `GiveALetterHint` per letter occurrence of the text,
   * shuffled. Fails as `random.sample` does when the pool has fewer than 26 icons.
   */
  method InitBase(stringToEncrypt: string, puzzleType: string, hints: seq<Hint>, used: PyVal,
                  icons: seq<string>, d: Draws) returns (r: Result<Base, Error>)
    requires ValidDraws(stringToEncrypt, icons, d)
    ensures r.Err? <==> |icons| < 26
    ensures r.Err? ==> r.error == SampleLargerThanPopulation
    ensures r.Ok? ==> && r.value.stringToEncrypt == stringToEncrypt
                      && r.value.puzzleType == puzzleType
                      && r.value.used == used
    ensures r.Ok? ==> r.value.encryptionMap
                      == GetNewLetterMap(stringToEncrypt, icons, d.letterOrder, d.iconPicks).value
    ensures r.Ok? ==> r.value.hints == hints + FreshHints(stringToEncrypt, d.swaps)
  {
    var encryptionMap :- GetNewLetterMap(stringToEncrypt, icons, d.letterOrder, d.iconPicks);
    var added := MakeFreshHints(stringToEncrypt, d.swaps);
    r := Ok(Base(stringToEncrypt, puzzleType, encryptionMap, hints + added, used));
  }

  /** `p` has the class, text, label, flag and attributes that the call `c` gives. */
  predicate MadeBy(p: Puzzle, c: Ctor) {
    && p.kind == KindOf(c)
    && p.base.stringToEncrypt == TextOf(c)
    && p.base.puzzleType == LabelOf(c)
    && p.base.used == c.used
    && p.fields == FieldsOf(c)
  }

  /**
   * The eight constructors: each calls the base constructor with its text,
   * its label, no hints and `used`, and then assigns its own attributes.
   */
  method Construct(c: Ctor, icons: seq<string>, d: Draws) returns (r: Result<Puzzle, Error>)
    requires ValidDraws(TextOf(c), icons, d)
    ensures r.Err? <==> |icons| < 26
    ensures r.Err? ==> r.error == SampleLargerThanPopulation
    ensures r.Ok? ==> MadeBy(r.value, c)
    ensures r.Ok? ==> r.value.base.hints == FreshHints(TextOf(c), d.swaps)
    ensures r.Ok? ==> r.value.base.encryptionMap
                      == GetNewLetterMap(TextOf(c), icons, d.letterOrder, d.iconPicks).value
  {
    var base :- InitBase(TextOf(c), LabelOf(c), [], c.used, icons, d);
    r := Ok(Puzzle(KindOf(c), base, FieldsOf(c)));
  }

  /** Shuffling keeps which hints there are. */
  lemma FreshHintsMember(s: string, swaps: seq<nat>, h: Hint)
    requires FitsShuffle(swaps, |Letters(s)|)
    ensures h in FreshHints(s, swaps) <==> h in HintsFor(Letters(s))
  {
    var hs := FreshHints(s, swaps);
    assert h in hs <==> multiset(hs)[h] > 0;
    assert h in HintsFor(Letters(s)) <==> multiset(HintsFor(Letters(s)))[h] > 0;
  }

  /**
   * For a fresh puzzle, the hints reveal exactly the letters that the cipher
   * map has keys for: each hint carries one lower-case letter, and a letter
   * has a hint if and only if it is a key of the map. Spaces, digits and
   * punctuation get neither.
   */
  lemma HintLettersAreMapKeys(s: string, icons: seq<string>, d: Draws)
    requires ValidDraws(s, icons, d) && |icons| >= 26
    ensures forall h :: h in FreshHints(s, d.swaps) ==> |h.letter| == 1 && h.letter[0] in Alphabet
    ensures forall c :: GiveALetterHint([c]) in FreshHints(s, d.swaps)
                        <==> c in Keys(GetNewLetterMap(s, icons, d.letterOrder, d.iconPicks).value)
  {
    var letters := Letters(s);
    forall h | h in FreshHints(s, d.swaps) ensures |h.letter| == 1 && h.letter[0] in Alphabet {
      FreshHintsMember(s, d.swaps, h);
      HintsForMember(letters, h);
    }
    var m := GetNewLetterMap(s, icons, d.letterOrder, d.iconPicks).value;
    LetterSetOfLetters(s);
    assert Elements(Keys(m)) == Elements(letters);
    forall c ensures GiveALetterHint([c]) in FreshHints(s, d.swaps) <==> c in Keys(m) {
      FreshHintsMember(s, d.swaps, GiveALetterHint([c]));
      HintsForMember(letters, GiveALetterHint([c]));
      assert c in letters <==> c in Elements(letters);
      assert c in Keys(m) <==> c in Elements(Keys(m));
    }
  }

  /** `data[key]`, raising `KeyError` when the dict lacks the key. */
  function Need<V(==)>(data: Dict<string, V>, key: string): (r: Result<V, Error>)
    ensures r.Err? <==> key !in Keys(data)
    ensures r.Err? ==> r.error == KeyError(key)
    ensures r.Ok? ==> Get(data, key) == Some(r.value)
  {
    GetKeys(data, key);
    match Get(data, key)
    case None => Err(KeyError(key))
    case Some(v) => Ok(v)
  }

  /** `cls.from_json(data)`: the class's own `from_json`. */
  function FromJson(k: Kind, data: Dict<string, string>): Result<Ctor, Error> {
    match k
    case ListPuzzle => ListPuzzleFromJson(data)
    case CharacterQuote => CharacterQuoteFromJson(data)
    case FamousDocumentQuote => FamousDocumentQuoteFromJson(data)
    case DirectQuote => DirectQuoteFromJson(data)
    case GeneralPhrase => GeneralPhraseFromJson(data)
    case SongLyrics => SongLyricsFromJson(data)
    case Riddle => RiddleFromJson(data)
    case RiddleSolvedInReverse => RiddleSolvedInReverseFromJson(data)
  }

  /*
   * Each variant's `from_json` makes the constructor call with the record's
   * values, reading the keys in the order its arguments are written.
   */

  function ListPuzzleFromJson(data: Dict<string, string>): Result<Ctor, Error> {
    var setup :- Need(data, "setup");
    var text :- Need(data, "string_to_encrypt");
    var used :- Need(data, "used");
    Ok(NewListPuzzle(setup, Split(text), PStr(used)))
  }

  /** The source type is the first space-separated word of the stored label. */
  function CharacterQuoteFromJson(data: Dict<string, string>): Result<Ctor, Error> {
    var quote :- Need(data, "string_to_encrypt");
    var puzzleType :- Need(data, "puzzle_type");
    var characterName :- Need(data, "character_name");
    var source :- Need(data, "source");
    var date :- Need(data, "date");
    var used :- Need(data, "used");
    Ok(NewCharacterQuote(quote, FirstField(puzzleType), characterName, source, date, PStr(used)))
  }

  function FamousDocumentQuoteFromJson(data: Dict<string, string>): Result<Ctor, Error> {
    var quote :- Need(data, "string_to_encrypt");
    var source :- Need(data, "source");
    var author :- Need(data, "author");
    var date :- Need(data, "date");
    var used :- Need(data, "used");
    Ok(NewFamousDocumentQuote(quote, source, author, date, PStr(used)))
  }

  /** The date is optional: `data.get("date")`. */
  function DirectQuoteFromJson(data: Dict<string, string>): Result<Ctor, Error> {
    var quote :- Need(data, "string_to_encrypt");
    var author :- Need(data, "author");
    var used :- Need(data, "used");
    Ok(NewDirectQuote(quote, author, Get(data, "date"), PStr(used)))
  }

  function GeneralPhraseFromJson(data: Dict<string, string>): Result<Ctor, Error> {
    var phrase :- Need(data, "string_to_encrypt");
    var used :- Need(data, "used");
    Ok(NewGeneralPhrase(phrase, PStr(used)))
  }

  function SongLyricsFromJson(data: Dict<string, string>): Result<Ctor, Error> {
    var lyrics :- Need(data, "string_to_encrypt");
    var artist :- Need(data, "artist");
    var title :- Need(data, "title");
    var date :- Need(data, "date");
    var used :- Need(data, "used");
    Ok(NewSongLyrics(lyrics, artist, title, date, PStr(used)))
  }

  /** The riddle's answer is the text that is encrypted. */
  function RiddleFromJson(data: Dict<string, string>): Result<Ctor, Error> {
    var question :- Need(data, "question");
    var answer :- Need(data, "string_to_encrypt");
    var used :- Need(data, "used");
    Ok(NewRiddle(question, answer, PStr(used)))
  }

  /** Here the question is the text that is encrypted. */
  function RiddleSolvedInReverseFromJson(data: Dict<string, string>): Result<Ctor, Error> {
    var question :- Need(data, "string_to_encrypt");
    var answer :- Need(data, "answer");
    var used :- Need(data, "used");
    Ok(NewRiddleSolvedInReverse(question, answer, PStr(used)))
  }
}
