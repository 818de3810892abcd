/**
 * What each variant's `from_json` makes of the storage record that
 * `to_json()` writes: the constructor call it reconstructs, the keys it
 * fails on, and exactly when the round trip gives back the call that made
 * the puzzle.
 */
module PuzzleDecode {
  import opened Wrappers
  import opened Seqs
  import opened Text
  import opened PyValues
  import opened Dicts
  import opened Puzzles
  import opened PuzzleJson

  /** The storage record of a puzzle made by the call `c`. */
  function CtorStorage(c: Ctor): Dict<string, string> {
    StorageRecord(KindOf(c), LabelOf(c), TextOf(c), c.used, FieldsOf(c))
  }

  /** Writing a puzzle depends only on the call that made it, not on its map or hints. */
  lemma StorageOfMadeBy(p: Puzzle, c: Ctor)
    requires MadeBy(p, c)
    ensures StorageJson(p) == CtorStorage(c)
  {
  }

  /** The lookup of a key in the comprehension, from the lookup before it. */
  function StrOf(o: Option<PyVal>): Option<string> {
    match o
    case None => None
    case Some(v) => if v == PNone then None else Some(Str(v))
  }

  lemma GetCons<K, V>(e: (K, V), d: Dict<K, V>, k: K)
    ensures Get([e] + d, k) == if e.0 == k then Some(e.1) else Get(d, k)
  {
    assert ([e] + d)[1..] == d;
  }

  /** After dropping the None values and applying `str`, a key maps to `str` of its old value, if that was not None. */
  lemma {:induction false} GetFinalize(d: Dict<string, PyVal>, key: string)
    requires DistinctKeys(d)
    ensures Get(Finalize(d), key) == StrOf(Get(d, key))
  {
    if d != [] {
      var e, rest := d[0], d[1..];
      assert Keys(rest) == Keys(d)[1..];
      DistinctTail(Keys(d));
      GetFinalize(rest, key);
      if e.1 == PNone {
        assert Finalize(d) == Finalize(rest);
        if e.0 == key {
          DistinctParts([e.0], Keys(rest), 0);
          GetKeys(rest, key);
        }
      } else {
        var s := Str(e.1);
        assert Finalize(d) == [(e.0, s)] + Finalize(rest);
        GetCons((e.0, s), Finalize(rest), key);
      }
    }
  }

  /** `used` followed by a variant's attributes has no repeated key. */
  lemma UsedFirst(k: Kind, used: PyVal, fields: Dict<string, PyVal>)
    requires Keys(fields) == FieldNames(k)
    ensures DistinctKeys([("used", used)] + fields)
  {
    var fs := FieldNames(k);
    FieldNamesFresh(k);
    DistinctParts(ReservedKeys, fs, 6);
    DistinctSuffix(ReservedKeys + fs, 7);
    assert (ReservedKeys + fs)[7..] == fs;
    assert Keys([("used", used)] + fields) == ["used"] + fs;
    DistinctConcat(["used"], fs);
  }

  /** The value a storage record holds under each key. */
  lemma RecordGet(k: Kind, pt: string, text: string, used: PyVal, fields: Dict<string, PyVal>, key: string)
    requires Keys(fields) == FieldNames(k)
    ensures Get(StorageRecord(k, pt, text, used, fields), key)
            == if key == "type" then Some(Name(k))
               else if key == "puzzle_type" then Some(pt)
               else if key == "string_to_encrypt" then Some(text)
               else if key == "length" then Some(NatToString(|text|))
               else if key == "used" then StrOf(Some(used))
               else StrOf(Get(fields, key))
  {
    var e0, e1, e2, e3 := ("type", Name(k)), ("puzzle_type", pt), ("string_to_encrypt", text),
                          ("length", NatToString(|text|));
    var attrs := [("used", used)] + fields;
    var tail := Finalize(attrs);
    ConsFour(e0, e1, e2, e3, tail);
    GetCons(e0, [e1] + ([e2] + ([e3] + tail)), key);
    GetCons(e1, [e2] + ([e3] + tail), key);
    GetCons(e2, [e3] + tail, key);
    GetCons(e3, tail, key);
    UsedFirst(k, used, fields);
    GetFinalize(attrs, key);
    GetCons(("used", used), fields, key);
  }

  /** The label, the text and `used`, under their reserved keys. */
  lemma CtorHead(c: Ctor)
    ensures Get(CtorStorage(c), "puzzle_type") == Some(LabelOf(c))
    ensures Get(CtorStorage(c), "string_to_encrypt") == Some(TextOf(c))
    ensures Get(CtorStorage(c), "used") == StrOf(Some(c.used))
  {
    CtorText(c);
    CtorLabel(c);
    CtorUsed(c);
  }

  lemma CtorText(c: Ctor)
    ensures Get(CtorStorage(c), "string_to_encrypt") == Some(TextOf(c))
  {
    RecordGet(KindOf(c), LabelOf(c), TextOf(c), c.used, FieldsOf(c), "string_to_encrypt");
  }

  lemma CtorLabel(c: Ctor)
    ensures Get(CtorStorage(c), "puzzle_type") == Some(LabelOf(c))
  {
    RecordGet(KindOf(c), LabelOf(c), TextOf(c), c.used, FieldsOf(c), "puzzle_type");
  }

  lemma CtorUsed(c: Ctor)
    ensures Get(CtorStorage(c), "used") == StrOf(Some(c.used))
  {
    RecordGet(KindOf(c), LabelOf(c), TextOf(c), c.used, FieldsOf(c), "used");
  }

  /** Each of the variant's own attributes, under its own name. */
  lemma CtorField(c: Ctor, i: nat)
    requires i < |FieldNames(KindOf(c))|
    ensures Get(CtorStorage(c), FieldNames(KindOf(c))[i]) == StrOf(Some(FieldsOf(c)[i].1))
  {
    var k, fs := KindOf(c), FieldsOf(c);
    var key := FieldNames(k)[i];
    FieldNamesFresh(k);
    assert key == (ReservedKeys + FieldNames(k))[7 + i];
    forall j | 0 <= j < 7 ensures ReservedKeys[j] != key {
      assert ReservedKeys[j] == (ReservedKeys + FieldNames(k))[j];
    }
    DistinctSuffix(ReservedKeys + FieldNames(k), 7);
    assert (ReservedKeys + FieldNames(k))[7..] == FieldNames(k);
    GetAt(fs, i);
    RecordGet(k, LabelOf(c), TextOf(c), c.used, fs, key);
  }

  /**
   * The call `from_json` reconstructs from the storage record of `c`: `used`
   * comes back as the string `str(used)`, a list's elements as the words of
   * their join, and a character quote's source type as the part of its label
   * before the first space.
   */
  function Persisted(c: Ctor): (r: Ctor)
    ensures KindOf(r) == KindOf(c)
    ensures r.used == PStr(Str(c.used))
  {
    match c
    case NewListPuzzle(setup, elements, used) => NewListPuzzle(setup, Split(Join(elements)), PStr(Str(used)))
    case NewCharacterQuote(quote, sourceType, characterName, source, date, used) =>
      NewCharacterQuote(quote, FirstField(sourceType + " Quote"), characterName, source, date, PStr(Str(used)))
    case NewFamousDocumentQuote(quote, source, author, date, used) =>
      NewFamousDocumentQuote(quote, source, author, date, PStr(Str(used)))
    case NewDirectQuote(quote, author, dateOrNone, used) => NewDirectQuote(quote, author, dateOrNone, PStr(Str(used)))
    case NewGeneralPhrase(phrase, used) => NewGeneralPhrase(phrase, PStr(Str(used)))
    case NewSongLyrics(lyrics, artist, title, date, used) => NewSongLyrics(lyrics, artist, title, date, PStr(Str(used)))
    case NewRiddle(question, answer, used) => NewRiddle(question, answer, PStr(Str(used)))
    case NewRiddleSolvedInReverse(question, answer, used) =>
      NewRiddleSolvedInReverse(question, answer, PStr(Str(used)))
  }

  /** What `from_json` returns on a storage record: it fails on `used` exactly when `used` was None. */
  function Decoded(c: Ctor): Result<Ctor, Error> {
    if c.used == PNone then Err(KeyError("used")) else Ok(Persisted(c))
  }

  /** `data` holds the `i`-th attribute of `c` as `str` of its value, unless that is None. */
  predicate HoldsField(data: Dict<string, string>, c: Ctor, i: nat) {
    i < |FieldNames(KindOf(c))| ==> Get(data, FieldNames(KindOf(c))[i]) == StrOf(Some(FieldsOf(c)[i].1))
  }

  /**
   * `data` holds the values the call `c` gives: its text and label under their
   * reserved keys, `str(used)` unless `used` is None, and each of the variant's
   * (at most three) attributes.
   */
  predicate Holds(data: Dict<string, string>, c: Ctor) {
    && Get(data, "string_to_encrypt") == Some(TextOf(c))
    && Get(data, "puzzle_type") == Some(LabelOf(c))
    && Get(data, "used") == StrOf(Some(c.used))
    && HoldsField(data, c, 0) && HoldsField(data, c, 1) && HoldsField(data, c, 2)
  }

  /** The storage record of `c` holds the values of `c`. */
  lemma StorageHolds(c: Ctor)
    ensures Holds(CtorStorage(c), c)
  {
    CtorText(c);
    CtorLabel(c);
    CtorUsed(c);
    var n := |FieldNames(KindOf(c))|;
    if 0 < n { CtorField(c, 0); }
    if 1 < n { CtorField(c, 1); }
    if 2 < n { CtorField(c, 2); }
  }

  /** From any record holding the values of `c`, `from_json` rebuilds `c` as it persists. */
  lemma ReadHolds(data: Dict<string, string>, c: Ctor)
    requires Holds(data, c)
    ensures FromJson(KindOf(c), data) == Decoded(c)
  {
    match c
    case NewListPuzzle(_, _, _) => DecodeListPuzzle(data, c);
    case NewCharacterQuote(_, _, _, _, _, _) => DecodeCharacterQuote(data, c);
    case NewFamousDocumentQuote(_, _, _, _, _) => DecodeFamousDocumentQuote(data, c);
    case NewDirectQuote(_, _, _, _) => DecodeDirectQuote(data, c);
    case NewGeneralPhrase(_, _) => DecodeGeneralPhrase(data, c);
    case NewSongLyrics(_, _, _, _, _) => DecodeSongLyrics(data, c);
    case NewRiddle(_, _, _) => DecodeRiddle(data, c);
    case NewRiddleSolvedInReverse(_, _, _) => DecodeRiddleSolvedInReverse(data, c);
  }

  /** A present `used` comes back as the string it was stored as; a None one was never stored. */
  function ReadUsed(u: Option<string>): Result<PyVal, Error> {
    if u.None? then Err(KeyError("used")) else Ok(PStr(u.value))
  }

  lemma DecodeListPuzzle(data: Dict<string, string>, c: Ctor)
    requires c.NewListPuzzle? && Holds(data, c)
    ensures FromJson(KindOf(c), data) == Decoded(c)
  {
    assert FieldNames(KindOf(c))[0] == "setup" && StrOf(Some(FieldsOf(c)[0].1)) == Some(c.setup);
    var u := StrOf(Some(c.used));
    ReadListPuzzle(data, c.setup, Join(c.elements), u);
  }

  lemma ReadListPuzzle(data: Dict<string, string>, setup: string, text: string, used: Option<string>)
    requires Get(data, "setup") == Some(setup) && Get(data, "string_to_encrypt") == Some(text)
    requires Get(data, "used") == used
    ensures ListPuzzleFromJson(data)
            == var u :- ReadUsed(used); Ok(NewListPuzzle(setup, Split(text), u))
  {
  }

  lemma DecodeCharacterQuote(data: Dict<string, string>, c: Ctor)
    requires c.NewCharacterQuote? && Holds(data, c)
    ensures FromJson(KindOf(c), data) == Decoded(c)
  {
    assert FieldNames(KindOf(c))[0] == "character_name" && StrOf(Some(FieldsOf(c)[0].1)) == Some(c.characterName);
    assert FieldNames(KindOf(c))[1] == "source" && StrOf(Some(FieldsOf(c)[1].1)) == Some(c.source);
    assert FieldNames(KindOf(c))[2] == "date" && StrOf(Some(FieldsOf(c)[2].1)) == Some(c.date);
    var u := StrOf(Some(c.used));
    ReadCharacterQuote(data, c.quote, c.sourceType + " Quote", c.characterName, c.source, c.date, u);
  }

  lemma ReadCharacterQuote(data: Dict<string, string>, quote: string, pt: string, characterName: string,
                           source: string, date: string, used: Option<string>)
    requires Get(data, "string_to_encrypt") == Some(quote) && Get(data, "puzzle_type") == Some(pt)
    requires Get(data, "character_name") == Some(characterName) && Get(data, "source") == Some(source)
    requires Get(data, "date") == Some(date) && Get(data, "used") == used
    ensures CharacterQuoteFromJson(data)
            == var u :- ReadUsed(used); Ok(NewCharacterQuote(quote, FirstField(pt), characterName, source, date, u))
  {
  }

  lemma DecodeFamousDocumentQuote(data: Dict<string, string>, c: Ctor)
    requires c.NewFamousDocumentQuote? && Holds(data, c)
    ensures FromJson(KindOf(c), data) == Decoded(c)
  {
    assert FieldNames(KindOf(c))[0] == "source" && StrOf(Some(FieldsOf(c)[0].1)) == Some(c.source);
    assert FieldNames(KindOf(c))[1] == "author" && StrOf(Some(FieldsOf(c)[1].1)) == Some(c.author);
    assert FieldNames(KindOf(c))[2] == "date" && StrOf(Some(FieldsOf(c)[2].1)) == Some(c.date);
    var u := StrOf(Some(c.used));
    ReadFamousDocumentQuote(data, c.quote, c.source, c.author, c.date, u);
  }

  lemma ReadFamousDocumentQuote(data: Dict<string, string>, quote: string, source: string, author: string,
                                date: string, used: Option<string>)
    requires Get(data, "string_to_encrypt") == Some(quote) && Get(data, "source") == Some(source)
    requires Get(data, "author") == Some(author) && Get(data, "date") == Some(date)
    requires Get(data, "used") == used
    ensures FamousDocumentQuoteFromJson(data)
            == var u :- ReadUsed(used); Ok(NewFamousDocumentQuote(quote, source, author, date, u))
  {
  }

  lemma DecodeDirectQuote(data: Dict<string, string>, c: Ctor)
    requires c.NewDirectQuote? && Holds(data, c)
    ensures FromJson(KindOf(c), data) == Decoded(c)
  {
    assert FieldNames(KindOf(c))[0] == "author" && StrOf(Some(FieldsOf(c)[0].1)) == Some(c.author);
    assert FieldNames(KindOf(c))[1] == "date" && StrOf(Some(FieldsOf(c)[1].1)) == c.dateOrNone;
    var u := StrOf(Some(c.used));
    ReadDirectQuote(data, c.quote, c.author, c.dateOrNone, u);
  }

  lemma ReadDirectQuote(data: Dict<string, string>, quote: string, author: string, date: Option<string>,
                        used: Option<string>)
    requires Get(data, "string_to_encrypt") == Some(quote) && Get(data, "author") == Some(author)
    requires Get(data, "date") == date && Get(data, "used") == used
    ensures DirectQuoteFromJson(data)
            == var u :- ReadUsed(used); Ok(NewDirectQuote(quote, author, date, u))
  {
  }

  lemma DecodeGeneralPhrase(data: Dict<string, string>, c: Ctor)
    requires c.NewGeneralPhrase? && Holds(data, c)
    ensures FromJson(KindOf(c), data) == Decoded(c)
  {
    var u := StrOf(Some(c.used));
    ReadGeneralPhrase(data, c.phrase, u);
  }

  lemma ReadGeneralPhrase(data: Dict<string, string>, phrase: string, used: Option<string>)
    requires Get(data, "string_to_encrypt") == Some(phrase) && Get(data, "used") == used
    ensures GeneralPhraseFromJson(data) == var u :- ReadUsed(used); Ok(NewGeneralPhrase(phrase, u))
  {
  }

  lemma DecodeSongLyrics(data: Dict<string, string>, c: Ctor)
    requires c.NewSongLyrics? && Holds(data, c)
    ensures FromJson(KindOf(c), data) == Decoded(c)
  {
    assert FieldNames(KindOf(c))[0] == "artist" && StrOf(Some(FieldsOf(c)[0].1)) == Some(c.artist);
    assert FieldNames(KindOf(c))[1] == "title" && StrOf(Some(FieldsOf(c)[1].1)) == Some(c.title);
    assert FieldNames(KindOf(c))[2] == "date" && StrOf(Some(FieldsOf(c)[2].1)) == Some(c.date);
    var u := StrOf(Some(c.used));
    ReadSongLyrics(data, c.lyrics, c.artist, c.title, c.date, u);
  }

  lemma ReadSongLyrics(data: Dict<string, string>, lyrics: string, artist: string, title: string,
                       date: string, used: Option<string>)
    requires Get(data, "string_to_encrypt") == Some(lyrics) && Get(data, "artist") == Some(artist)
    requires Get(data, "title") == Some(title) && Get(data, "date") == Some(date)
    requires Get(data, "used") == used
    ensures SongLyricsFromJson(data)
            == var u :- ReadUsed(used); Ok(NewSongLyrics(lyrics, artist, title, date, u))
  {
  }

  lemma DecodeRiddle(data: Dict<string, string>, c: Ctor)
    requires c.NewRiddle? && Holds(data, c)
    ensures FromJson(KindOf(c), data) == Decoded(c)
  {
    assert FieldNames(KindOf(c))[0] == "question" && StrOf(Some(FieldsOf(c)[0].1)) == Some(c.question);
    var u := StrOf(Some(c.used));
    ReadRiddle(data, c.question, c.answer, u);
  }

  lemma ReadRiddle(data: Dict<string, string>, question: string, answer: string, used: Option<string>)
    requires Get(data, "question") == Some(question) && Get(data, "string_to_encrypt") == Some(answer)
    requires Get(data, "used") == used
    ensures RiddleFromJson(data) == var u :- ReadUsed(used); Ok(NewRiddle(question, answer, u))
  {
  }

  lemma DecodeRiddleSolvedInReverse(data: Dict<string, string>, c: Ctor)
    requires c.NewRiddleSolvedInReverse? && Holds(data, c)
    ensures FromJson(KindOf(c), data) == Decoded(c)
  {
    assert FieldNames(KindOf(c))[0] == "answer" && StrOf(Some(FieldsOf(c)[0].1)) == Some(c.answer);
    var u := StrOf(Some(c.used));
    ReadRiddleSolvedInReverse(data, c.question, c.answer, u);
  }

  lemma ReadRiddleSolvedInReverse(data: Dict<string, string>, question: string, answer: string,
                                  used: Option<string>)
    requires Get(data, "string_to_encrypt") == Some(question) && Get(data, "answer") == Some(answer)
    requires Get(data, "used") == used
    ensures RiddleSolvedInReverseFromJson(data)
            == var u :- ReadUsed(used); Ok(NewRiddleSolvedInReverse(question, answer, u))
  {
  }
  /**
   * Reading back the storage record of a puzzle gives the call that made it,
   * as it persists: `used` as a string, a list's words re-split, a character
   * quote's source type cut at its first space. A puzzle whose `used` is None
   * cannot be read back, because the record leaves `used` out.
   */
  lemma DecodeStorage(p: Puzzle, c: Ctor)
    requires MadeBy(p, c)
    ensures FromJson(p.kind, StorageJson(p)) == Decoded(c)
    ensures FromJson(p.kind, StorageJson(p)).Err? <==> c.used == PNone
    ensures FromJson(p.kind, StorageJson(p)).Err? ==> FromJson(p.kind, StorageJson(p)).error == KeyError("used")
  {
    StorageHolds(c);
    ReadHolds(CtorStorage(c), c);
  }

  /** The calls whose storage record reads back as the very same call. */
  predicate Lossless(c: Ctor) {
    && c.used.PStr?
    && (c.NewListPuzzle? ==> forall i :: 0 <= i < |c.elements| ==> c.elements[i] != [] && NoSpace(c.elements[i]))
    && (c.NewCharacterQuote? ==> ' ' !in c.sourceType)
  }

  lemma UsedPersisted(u: PyVal)
    ensures PStr(Str(u)) == u <==> u.PStr?
  {
  }

  lemma ElementsPersisted(elements: seq<string>)
    ensures Split(Join(elements)) == elements
            <==> forall i :: 0 <= i < |elements| ==> elements[i] != [] && NoSpace(elements[i])
  {
    if forall i :: 0 <= i < |elements| ==> elements[i] != [] && NoSpace(elements[i]) {
      SplitJoin(elements);
    }
  }

  lemma SourceTypePersisted(sourceType: string)
    ensures FirstField(sourceType + " Quote") == sourceType <==> ' ' !in sourceType
  {
    FirstFieldOfConcat(sourceType, " Quote");
  }

  /** The call comes back unchanged exactly when it is lossless. */
  lemma PersistedUnchanged(c: Ctor)
    ensures Persisted(c) == c <==> Lossless(c)
  {
    UsedPersisted(c.used);
    match c
    case NewListPuzzle(_, elements, _) => ElementsPersisted(elements);
    case NewCharacterQuote(_, sourceType, _, _, _, _) => SourceTypePersisted(sourceType);
    case _ =>
  }

  /** The storage round trip gives back the call that made a puzzle exactly when that call is lossless. */
  lemma StorageRoundTrip(p: Puzzle, c: Ctor)
    requires MadeBy(p, c)
    ensures FromJson(p.kind, StorageJson(p)) == Ok(c) <==> Lossless(c)
  {
    DecodeStorage(p, c);
    PersistedUnchanged(c);
  }

  /** What a read-back call persists as is lossless: a second save and load changes nothing. */
  lemma PersistedLossless(c: Ctor)
    ensures Lossless(Persisted(c))
    ensures Persisted(Persisted(c)) == Persisted(c)
  {
    PersistedUnchanged(Persisted(c));
  }

  /** The storage record names the class and the text's length, and leaves out the hints and the map. */
  lemma StorageKeys(p: Puzzle)
    requires WellFormed(p)
    ensures Get(StorageJson(p), "type") == Some(Name(p.kind))
    ensures Get(StorageJson(p), "length") == Some(NatToString(|p.base.stringToEncrypt|))
    ensures "hints" !in Keys(StorageJson(p)) && "encryption_map" !in Keys(StorageJson(p))
    ensures "used" in Keys(StorageJson(p)) <==> p.base.used != PNone
  {
    StorageReserved(p, "type");
    StorageReserved(p, "length");
    StorageDropped(p, "hints", 5);
    StorageDropped(p, "encryption_map", 4);
    StorageReserved(p, "used");
    GetKeys(StorageJson(p), "used");
  }

  lemma StorageReserved(p: Puzzle, key: string)
    requires WellFormed(p)
    ensures Get(StorageJson(p), key)
            == if key == "type" then Some(Name(p.kind))
               else if key == "puzzle_type" then Some(p.base.puzzleType)
               else if key == "string_to_encrypt" then Some(p.base.stringToEncrypt)
               else if key == "length" then Some(NatToString(|p.base.stringToEncrypt|))
               else if key == "used" then StrOf(Some(p.base.used))
               else StrOf(Get(p.fields, key))
  {
    RecordGet(p.kind, p.base.puzzleType, p.base.stringToEncrypt, p.base.used, p.fields, key);
  }

  /** A reserved key that the storage branch sets to None is not in the record. */
  lemma StorageDropped(p: Puzzle, key: string, i: nat)
    requires WellFormed(p) && i < |ReservedKeys| && ReservedKeys[i] == key
    requires key != "type" && key != "puzzle_type" && key != "string_to_encrypt" && key != "length" && key != "used"
    ensures key !in Keys(StorageJson(p))
  {
    FieldNamesFresh(p.kind);
    DistinctParts(ReservedKeys, FieldNames(p.kind), i);
    GetKeys(p.fields, key);
    StorageReserved(p, key);
    GetKeys(StorageJson(p), key);
  }

  /** `data[i]` is shown in `other_info` under the name `x`. */
  predicate ShownAs(data: Dict<string, PyVal>, i: nat, x: string) {
    i < |data| && data[i].1 != PNone && Title(ReplaceUnderscores(data[i].0)) == x
  }

  lemma {:induction false} OtherInfoNames(data: Dict<string, PyVal>, x: string)
    ensures x in Keys(OtherInfo(data)) <==> exists i: nat :: ShownAs(data, i, x)
  {
    if data != [] {
      var rest := data[1..];
      OtherInfoNames(rest, x);
      var head: Dict<string, PyVal> :=
        if data[0].1 == PNone then [] else [(Title(ReplaceUnderscores(data[0].0)), PStr(Str(data[0].1)))];
      assert OtherInfo(data) == head + OtherInfo(rest);
      KeysConcat(head, OtherInfo(rest));
      if x in Keys(OtherInfo(data)) {
        if x in Keys(head) {
          assert ShownAs(data, 0, x);
        } else {
          assert x in Keys(OtherInfo(rest));
          var j: nat :| ShownAs(rest, j, x);
          assert data[j + 1] == rest[j];
          assert ShownAs(data, j + 1, x);
        }
      }
      if exists i: nat :: ShownAs(data, i, x) {
        var i: nat :| ShownAs(data, i, x);
        if i == 0 {
          assert Keys(head) == [x];
        } else {
          assert rest[i - 1] == data[i];
          assert ShownAs(rest, i - 1, x);
        }
      }
    }
  }

  /**
   * The names in `other_info`: exactly the title-cased names of the
   * attributes whose value is not None.
   */
  lemma OtherInfoKeys(data: Dict<string, PyVal>, x: string)
    ensures x in Keys(Union([], OtherInfo(data))) <==> exists i: nat :: ShownAs(data, i, x)
  {
    KeysUnion([], OtherInfo(data), x);
    OtherInfoNames(data, x);
  }

  /**
   * A direct quote made without a date has no date in either record: the
   * storage record has no `date` key, and the frontend `other_info` shows the
   * author alone.
   */
  lemma DirectQuoteWithoutDate(c: Ctor)
    requires c.NewDirectQuote? && c.dateOrNone.None?
    ensures "date" !in Keys(CtorStorage(c))
    ensures Union([], OtherInfo(FieldsOf(c))) == [("Author", PStr(c.author))]
  {
    CtorField(c, 1);
    GetKeys(CtorStorage(c), "date");
    assert FieldsOf(c) == [("author", PStr(c.author)), ("date", PNone)];
    AuthorOnly(c.author);
  }

  lemma {:induction false} TitleAfterLower(s: string)
    requires forall i :: 0 <= i < |s| ==> 'a' <= s[i] <= 'z'
    ensures TitleAfter(s, true) == s
  {
    if s != [] {
      TitleAfterLower(s[1..]);
      assert s == [s[0]] + s[1..];
    }
  }

  lemma AuthorTitle()
    ensures Title(ReplaceUnderscores("author")) == "Author"
  {
    assert ReplaceUnderscores("author") == "author";
    assert "author"[1..] == "uthor";
    TitleAfterLower("uthor");
    assert Title("author") == [Upper('a')] + TitleAfter("uthor", true);
  }

  lemma AuthorOnly(author: string)
    ensures Union([], OtherInfo([("author", PStr(author)), ("date", PNone)])) == [("Author", PStr(author))]
  {
    var fs := [("author", PStr(author)), ("date", PNone)];
    assert fs[1..] == [("date", PNone)] && fs[1..][1..] == [];
    assert OtherInfo(fs[1..]) == [];
    AuthorTitle();
    assert OtherInfo(fs) == [("Author", PStr(author))];
  }

  /** The frontend view of such a direct quote. */
  lemma DirectQuoteFrontend(p: Puzzle, c: Ctor)
    requires MadeBy(p, c) && c.NewDirectQuote? && c.dateOrNone.None?
    ensures FrontendJson(p)[4] == ("other_info", Str(PDict([("Author", PStr(c.author))])))
  {
    DirectQuoteWithoutDate(c);
  }

  /** Every `from_json` reads `data["used"]`, so it fails on a record without `used`. */
  lemma FromJsonNeedsUsed(k: Kind, data: Dict<string, string>)
    requires "used" !in Keys(data)
    ensures FromJson(k, data).Err?
  {
  }

  /** The keys of a frontend record. */
  lemma FrontendKeysOf(p: Puzzle)
    ensures Keys(FrontendJson(p)) == ["puzzle_type", "string_to_encrypt", "hints", "encryption_map", "other_info"]
  {
  }

  /**
   * A frontend record has neither `type` nor `used`: no class's `from_json`
   * can read it back.
   */
  lemma FrontendUnreadable(p: Puzzle, k: Kind)
    ensures "type" !in Keys(FrontendJson(p)) && "used" !in Keys(FrontendJson(p))
    ensures FromJson(k, FrontendJson(p)).Err?
  {
    FrontendKeysOf(p);
    FromJsonNeedsUsed(k, FrontendJson(p));
  }

  /** A record's `used` written out again from the text it was read back as. */
  lemma RecordUsedReencoded(k: Kind, pt: string, text: string, u: PyVal, fields: Dict<string, PyVal>)
    requires u != PNone
    ensures StorageRecord(k, pt, text, PStr(Str(u)), fields) == StorageRecord(k, pt, text, u, fields)
  {
    FinalizeKept(("used", PStr(Str(u))), fields);
    FinalizeKept(("used", u), fields);
  }

  lemma LabelCancel(a: string, b: string, suffix: string)
    requires a + suffix == b + suffix
    ensures a == b
  {
    assert a == (a + suffix)[..|a|];
    assert b == (b + suffix)[..|b|];
  }

  /**
   * Storing the puzzle that the read-back call constructs gives the very same
   * record: always for the six variants that copy their values, for a
   * character quote exactly when its source type has no space, and for a list
   * exactly when re-splitting and re-joining its text gives the text back,
   * which holds whenever its elements are non-empty and free of whitespace.
   */
  lemma StorageReencoded(c: Ctor)
    requires c.used != PNone
    ensures !c.NewListPuzzle? ==>
              (CtorStorage(Persisted(c)) == CtorStorage(c) <==> (c.NewCharacterQuote? ==> ' ' !in c.sourceType))
    ensures c.NewListPuzzle? ==>
              (CtorStorage(Persisted(c)) == CtorStorage(c) <==> Join(Split(Join(c.elements))) == Join(c.elements))
    ensures c.NewListPuzzle? && (forall i :: 0 <= i < |c.elements| ==> c.elements[i] != [] && NoSpace(c.elements[i]))
            ==> CtorStorage(Persisted(c)) == CtorStorage(c)
  {
    var r := Persisted(c);
    RecordUsedReencoded(KindOf(c), LabelOf(c), TextOf(c), c.used, FieldsOf(c));
    match c
    case NewListPuzzle(_, elements, _) =>
      ElementsPersisted(elements);
      RecordUsedReencoded(ListPuzzle, "list", TextOf(r), c.used, FieldsOf(c));
      if CtorStorage(r) == CtorStorage(c) {
        assert CtorStorage(r)[2] == CtorStorage(c)[2];
      }
    case NewCharacterQuote(_, sourceType, _, _, _, _) =>
      SourceTypePersisted(sourceType);
      if CtorStorage(r) == CtorStorage(c) {
        assert CtorStorage(r)[1] == CtorStorage(c)[1];
        LabelCancel(FirstField(sourceType + " Quote"), sourceType, " Quote");
      }
    case _ =>
  }
}
