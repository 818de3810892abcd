/**
 * The older puzzle classes of the quote module. Their base constructor keeps
 * the text and the label and makes one hint per character of the lower-cased
 * text, spaces and punctuation included, after the hints it is given. It
 * builds no cipher map and has no `used` flag. The registry never sees these
 * classes.
 */
module Legacy {
  import opened Wrappers
  import opened Seqs
  import opened Text
  import opened PyValues
  import opened Dicts
  import opened Hints
  import opened Shuffle
  import opened Puzzles

  /** A call of one of the quote module's eight constructors, with its arguments as the signatures name them. */
  datatype LegacyCtor =
    | OldListPuzzle(setup: string, elements: seq<string>)
    | OldCharacterQuote(quote: string, sourceType: string, characterName: string, sourceTitle: string,
                        releaseDate: int)
    | OldFamousDocumentQuote(quote: string, sourceTitle: string, authorName: string, publishDate: int)
    | OldDirectQuote(quote: string, author: string, dateOrNone: Option<int>)
    | OldGeneralPhrase(quote: string)
    | OldSongLyrics(lyric: string, artist: string, songName: string, date: int)
    | OldRiddle(question: string, answer: string)
    | OldRiddleSolvedInReverse(question: string, answer: string)

  /** The attributes the quote module's base constructor assigns. */
  datatype LegacyBase = LegacyBase(stringToEncrypt: string, puzzleType: string, hints: seq<Hint>)

  /** An object of the quote module: its class, the base attributes, then the variant's own attributes. */
  datatype LegacyPuzzle = LegacyPuzzle(kind: Kind, base: LegacyBase, fields: Dict<string, PyVal>)

  function LegacyKindOf(c: LegacyCtor): Kind {
    match c
    case OldListPuzzle(_, _) => ListPuzzle
    case OldCharacterQuote(_, _, _, _, _) => CharacterQuote
    case OldFamousDocumentQuote(_, _, _, _) => FamousDocumentQuote
    case OldDirectQuote(_, _, _) => DirectQuote
    case OldGeneralPhrase(_) => GeneralPhrase
    case OldSongLyrics(_, _, _, _) => SongLyrics
    case OldRiddle(_, _) => Riddle
    case OldRiddleSolvedInReverse(_, _) => RiddleSolvedInReverse
  }

  /** The text each constructor hands to the base constructor. */
  function LegacyText(c: LegacyCtor): string {
    match c
    case OldListPuzzle(_, elements) => Join(elements)
    case OldCharacterQuote(quote, _, _, _, _) => quote
    case OldFamousDocumentQuote(quote, _, _, _) => quote
    case OldDirectQuote(quote, _, _) => quote
    case OldGeneralPhrase(quote) => quote
    case OldSongLyrics(lyric, _, _, _) => lyric
    case OldRiddle(_, answer) => answer
    case OldRiddleSolvedInReverse(question, _) => question
  }

  /** The label each constructor hands to the base constructor. */
  function LegacyLabel(c: LegacyCtor): string {
    match c
    case OldListPuzzle(_, _) => "list"
    case OldCharacterQuote(_, sourceType, _, _, _) => sourceType + " Quote"
    case OldFamousDocumentQuote(_, _, _, _) => "Famous Document"
    case OldDirectQuote(_, _, _) => "Direct Quote"
    case OldGeneralPhrase(_) => "General Quote"
    case OldSongLyrics(_, _, _, _) => "Song Lyric"
    case OldRiddle(_, _) => "Riddle"
    case OldRiddleSolvedInReverse(_, _) => "Reverse Riddle"
  }

  /** The attribute names each class assigns after the base constructor, in order. */
  function LegacyFieldNames(k: Kind): seq<string> {
    match k
    case ListPuzzle => ["setup"]
    case CharacterQuote => ["character_name", "source_title", "release_date"]
    case FamousDocumentQuote => ["source_title", "AuthorName", "release_date"]
    case DirectQuote => ["author", "date"]
    case GeneralPhrase => []
    case SongLyrics => ["artist", "song_name", "date"]
    case Riddle => ["question"]
    case RiddleSolvedInReverse => ["answer"]
  }

  /** The attributes each constructor assigns after the base constructor, in order. */
  function LegacyFields(c: LegacyCtor): (fs: Dict<string, PyVal>)
    ensures Keys(fs) == LegacyFieldNames(LegacyKindOf(c))
  {
    match c
    case OldListPuzzle(setup, _) => [("setup", PStr(setup))]
    case OldCharacterQuote(_, _, characterName, sourceTitle, releaseDate) =>
      [("character_name", PStr(characterName)), ("source_title", PStr(sourceTitle)),
       ("release_date", PInt(releaseDate))]
    case OldFamousDocumentQuote(_, sourceTitle, authorName, publishDate) =>
      [("source_title", PStr(sourceTitle)), ("AuthorName", PStr(authorName)), ("release_date", PInt(publishDate))]
    case OldDirectQuote(_, author, dateOrNone) =>
      [("author", PStr(author)), ("date", if dateOrNone.Some? then PInt(dateOrNone.value) else PNone)]
    case OldGeneralPhrase(_) => []
    case OldSongLyrics(_, artist, songName, date) =>
      [("artist", PStr(artist)), ("song_name", PStr(songName)), ("date", PInt(date))]
    case OldRiddle(question, _) => [("question", PStr(question))]
    case OldRiddleSolvedInReverse(_, answer) => [("answer", PStr(answer))]
  }

  /** The hints the quote module adds: one per character of the lower-cased text, in shuffled order. */
  function LegacyHints(s: string, swaps: seq<nat>): (hs: seq<Hint>)
    requires FitsShuffle(swaps, |s|)
  {
    Shuffled(HintsFor(LowerString(s)), swaps)
  }

  /**
   * The quote module's `CryptographBase.__init__`: the label defaults to
   * "Undefined" and the supplied hints to none; the list of the lower-cased
   * text's characters is shuffled in place and one hint per entry is appended.
   */
  method LegacyInitBase(stringToEncrypt: string, puzzleType: Option<string>, hints: Option<seq<Hint>>,
                        swaps: seq<nat>) returns (b: LegacyBase)
    requires FitsShuffle(swaps, |stringToEncrypt|)
    ensures b.stringToEncrypt == stringToEncrypt
    ensures b.puzzleType == if puzzleType.Some? then puzzleType.value else "Undefined"
    ensures b.hints == (if hints.Some? then hints.value else []) + LegacyHints(stringToEncrypt, swaps)
  {
    var supplied := if hints.None? then [] else hints.value;
    var typeLabel := if puzzleType.None? then "Undefined" else puzzleType.value;
    var letters := LowerString(stringToEncrypt);
    var shuffled := ShuffleCopy(letters, swaps);
    HintsForSteps(letters, swaps, |letters|);
    b := LegacyBase(stringToEncrypt, typeLabel, supplied + HintsFor(shuffled));
  }

  /**
   * The eight constructors of the quote module: each calls the base
   * constructor with its text and its label and no hints, then assigns its
   * own attributes.
   */
  method LegacyConstruct(c: LegacyCtor, swaps: seq<nat>) returns (p: LegacyPuzzle)
    requires FitsShuffle(swaps, |LegacyText(c)|)
    ensures p.kind == LegacyKindOf(c) && p.fields == LegacyFields(c)
    ensures p.base == LegacyBase(LegacyText(c), LegacyLabel(c), LegacyHints(LegacyText(c), swaps))
  {
    var base := LegacyInitBase(LegacyText(c), Some(LegacyLabel(c)), None, swaps);
    p := LegacyPuzzle(LegacyKindOf(c), base, LegacyFields(c));
  }

  /**
   * The hints are the supplied ones followed by exactly one per character of
   * the text: there are as many new hints as characters, and the new hints
   * are a rearrangement of the one-character hints of the lower-cased text.
   */
  lemma LegacyHintCount(s: string, supplied: seq<Hint>, swaps: seq<nat>)
    requires FitsShuffle(swaps, |s|)
    ensures |supplied + LegacyHints(s, swaps)| == |supplied| + |s|
    ensures multiset(LegacyHints(s, swaps)) == multiset(HintsFor(LowerString(s)))
  {
  }

  /** A hint is added exactly for the characters of the lower-cased text, whatever they are. */
  lemma LegacyHintMember(s: string, swaps: seq<nat>, h: Hint)
    requires FitsShuffle(swaps, |s|)
    ensures h in LegacyHints(s, swaps) <==> |h.letter| == 1 && h.letter[0] in LowerString(s)
  {
    var hs := LegacyHints(s, swaps);
    assert h in hs <==> multiset(hs)[h] > 0;
    assert h in HintsFor(LowerString(s)) <==> multiset(HintsFor(LowerString(s)))[h] > 0;
    HintsForMember(LowerString(s), h);
  }

  /**
   * Where the two hierarchies differ on hints: every character of the
   * lower-cased text gets a hint from the quote module, but from the puzzle
   * module only when it is one of the 26 letters.
   */
  lemma LegacyHintsVersusFresh(s: string, legacySwaps: seq<nat>, swaps: seq<nat>, c: char)
    requires FitsShuffle(legacySwaps, |s|) && FitsShuffle(swaps, |Letters(s)|)
    requires c in LowerString(s)
    ensures GiveALetterHint([c]) in LegacyHints(s, legacySwaps)
    ensures GiveALetterHint([c]) in FreshHints(s, swaps) <==> c in Alphabet
  {
    LegacyHintMember(s, legacySwaps, GiveALetterHint([c]));
    FreshHintsMember(s, swaps, GiveALetterHint([c]));
    HintsForMember(Letters(s), GiveALetterHint([c]));
    assert c in Letters(s) <==> multiset(Letters(s))[c] > 0;
    assert multiset(LowerString(s))[c] > 0;
  }

  /** An object of the quote module has no `encryption_map` and no `used` among its attributes. */
  lemma LegacyAttributes(c: LegacyCtor)
    ensures "used" !in Keys(LegacyFields(c)) && "encryption_map" !in Keys(LegacyFields(c))
    ensures "string_to_encrypt" !in Keys(LegacyFields(c)) && "puzzle_type" !in Keys(LegacyFields(c))
  {
  }

  /**
   * The labels agree with the puzzle module's except for song lyrics, which
   * the quote module labels "Song Lyric" and the puzzle module "Song lyrics".
   */
  lemma LegacyLabelsAgree(c: LegacyCtor, m: Ctor)
    requires KindOf(m) == LegacyKindOf(c)
    requires c.OldCharacterQuote? ==> m.sourceType == c.sourceType
    ensures LegacyLabel(c) == LabelOf(m) <==> !c.OldSongLyrics?
  {
    if c.OldSongLyrics? {
      assert |LegacyLabel(c)| != |LabelOf(m)|;
    }
  }
}
