# Cryptogram puzzles of codiac-puzzles, in Dafny

This project models the puzzle core of the codiac-puzzles sandbox. A puzzle
is a short text to be decrypted. It has a
label (`puzzle_type`), a cipher map from each of its letters to an icon, and
a list of hints that reveal letters. Eight puzzle classes derive from
`CryptographBase`:

- list puzzle;
- character quote;
- famous document quote;
- direct quote;
- general phrase;
- song lyrics;
- riddle;
- reverse riddle.

Each class fixes the text it encrypts and the label it shows, and it keeps
attributes of its own.

The model covers these parts of the core:

- **Cipher map** (`LetterMap`). `get_new_letter_map` pairs every distinct
  letter of the lower-cased text with one of 26 icons sampled from the icon
  pool.
- **Hints** (`Hints`). A `GiveALetterHint` and its `to_json`.
- **Construction** (`Shuffle`, `Puzzles`).
  - The base constructor builds the map, keeps the text's letter
    occurrences, shuffles them in place with CPython's Fisher–Yates
    `random.shuffle`, and appends one hint per entry.
  - The eight constructors call it.
  - The puzzle object is a value: nothing changes it after construction.
- **Serialisation** (`PuzzleJson`). `to_json` first de-duplicates the hints
  by letter, then builds either the storage record or the frontend view.
- **Reading back** (`PuzzleDecode`). Each class's `from_json` turns a
  storage record back into a constructor call. The module proves exactly
  what survives a save and a load.
- **Registry** (`Registry`).
  - `get_all_subclasses` is a worklist walk over the subclass relation.
  - `PUZZLE_CLASSES` maps names to classes, in ascending name order.
  - `parse_puzzle` looks a record's `type` up in the registry.
- **Form parameters** (`Parameters`). `get_puzzle_parameters` returns a
  class's constructor signature without the names the new-puzzle form never
  asks for.
- **Older hierarchy** (`Legacy`). The quote module's older classes: no
  cipher map, no `used` flag, and one hint per character of the text.

Three things chosen at run time are inputs to the model:

- the iteration order of a Python set;
- the positions `random.sample` picks;
- the draws `random.shuffle` makes.

The icon pool is a parameter as well. Python dicts are sequences of
key–value pairs in insertion order (`Dicts`).

Some behaviours of the code are worth stating outright; the model follows
the code:

- The frontend view carries no `type` key, so `parse_puzzle` cannot read it
  (`Registry.ParseFrontend`).
- `get_puzzle_parameters` keeps `used` and the optional parameters
  (DirectQuote's `date`), because it drops only the five excluded names
  (`Parameters.ParametersOfClass`).
- Hints are de-duplicated only when a puzzle is written out. The object
  keeps one hint per letter occurrence (`Puzzles.FreshHints`,
  `PuzzleJson.DedupHints`).
- `used` is written as `str(used)` and read back as that string, not as a
  bool (`PuzzleDecode.Persisted`, `PuzzleDecode.UsedPersisted`).
- `FamousDocumentQuote.from_json` takes a `used` parameter it never reads.
  The model's `from_json` has no such parameter.
- `crud/create.py` imports `PUZZLE_CLASSES` from the GUI module, which
  imports `get_puzzle_parameters` back from the half-initialised `create`.
  Whichever module is imported first, this circular import raises
  `ImportError`. Past that, the missing `import inspect` would raise
  `NameError` at line 16. The model gives the evident intent: the signature
  of the registered class with the excluded names removed.

## Model

| member | source | states |
|---|---|---|
| Text.LowerString | codiac_sandbox/puzzle_types.py:24 | `lower()` keeps the length and lowers each character in place |
| Text.AlphabetIsAToZ | codiac_sandbox/puzzle_types.py:24 | the filter string holds exactly the 26 letters `a`–`z` |
| Text.Letters | codiac_sandbox/puzzle_types.py:23-25 | the letter list holds only letters of the alphabet, each exactly as often as it occurs in the lower-cased text, and nothing else |
| Text.LetterSetSize | codiac_sandbox/utils/make_letter_map.py:13 | the set of letters of any text is a subset of the alphabet, so it has at most 26 elements |
| Text.UpperContributesLower | codiac_sandbox/utils/make_letter_map.py:13 | an upper- or lower-case letter of the text puts its lower-case form in the letter set |
| Text.Split | codiac_sandbox/puzzle_types.py:93 | `split()` yields only non-empty words without whitespace |
| Text.SplitJoin | codiac_sandbox/puzzle_types.py:86-93 | splitting the space-join of words gives the words back when none is empty or holds whitespace |
| Text.FirstField | codiac_sandbox/puzzle_types.py:117 | `split(" ")[0]` is the longest prefix without a space, ended by a space or by the end of the text |
| Text.FirstFieldOfConcat | codiac_sandbox/puzzle_types.py:108-117 | the source type read back from `"<source type> Quote"` equals the original if and only if the original has no space |
| Text.NatToString | codiac_sandbox/puzzle_types.py:54 | `str(len(...))` is a non-empty string of decimal digits |
| Hints.ToJson | codiac_sandbox/hint_types.py:2-8 | a letter hint serialises as its letter, then `type` carrying the class name, with distinct keys |
| LetterMap.SampleDistinct | codiac_sandbox/utils/make_letter_map.py:15 | sampling without replacement from a pool without repeats draws distinct icons |
| LetterMap.Zip | codiac_sandbox/utils/make_letter_map.py:12 | `zip` pairs elements position by position, up to the shorter length |
| LetterMap.ZipToDict | codiac_sandbox/utils/make_letter_map.py:10-16 | the comprehension over the zipped pairs keeps every pair: keys in set order, no repeated key, each with its drawn icon |
| LetterMap.GetNewLetterMap | codiac_sandbox/utils/make_letter_map.py:9-16 | fails with `ValueError` exactly when the pool has fewer than 26 icons; otherwise the keys are exactly the text's distinct letters (at most 26), each in the pool, and distinct icons when the pool has no repeats |
| Shuffle.Shuffled | codiac_sandbox/puzzle_types.py:26 | the shuffled order is a permutation of the input |
| Shuffle.ShuffleInPlace | codiac_sandbox/puzzle_types.py:26 | the in-place Fisher–Yates loop leaves the array in the order the draws define |
| Shuffle.ShuffleCopy | codiac_sandbox/puzzle_types.py:23-26 | a fresh list copied from the text and shuffled in place is the shuffled order of the text |
| Puzzles.FieldsOf | codiac_sandbox/puzzle_types.py:84-241 | each constructor assigns exactly its class's own attributes, in order |
| Puzzles.FreshHints | codiac_sandbox/puzzle_types.py:23-27 | a fresh puzzle has one hint per letter occurrence, as a rearrangement of the letter hints |
| Puzzles.HintsForSwap | codiac_sandbox/puzzle_types.py:26-27 | one swap of the letters and one swap of their hints commute with making the hints |
| Puzzles.HintsForSteps | codiac_sandbox/puzzle_types.py:26-27 | shuffling the letters and then making hints equals making hints and then shuffling them |
| Puzzles.MakeFreshHints | codiac_sandbox/puzzle_types.py:23-27 | the hints made from the shuffled letter list are the shuffled letter hints |
| Puzzles.InitBase | codiac_sandbox/puzzle_types.py:10-28 | the base constructor fails exactly when the icon pool is too small; otherwise it keeps text, label and `used`, stores the text's cipher map, and puts the supplied hints before the fresh ones |
| Puzzles.Construct | codiac_sandbox/puzzle_types.py:84-241 | each constructor passes its text, its label and `used` to the base, and then sets its own attributes; its hints are the fresh hints of its text |
| Puzzles.HintsForMember | codiac_sandbox/puzzle_types.py:27 | a hint is made from a letter list if and only if it holds one character of that list |
| Puzzles.FreshHintsMember | codiac_sandbox/puzzle_types.py:26-27 | shuffling keeps which hints there are |
| Puzzles.HintLettersAreMapKeys | codiac_sandbox/puzzle_types.py:22-27 | each fresh hint reveals one letter of the alphabet, and a letter has a hint if and only if it is a key of the cipher map |
| Puzzles.Need | codiac_sandbox/puzzle_types.py:91-94 | `data[key]` fails with `KeyError(key)` exactly when the key is absent; otherwise it gives the key's value |
| PuzzleJson.DedupHints | codiac_sandbox/puzzle_types.py:37-45 | the loop with its set of seen letters serialises exactly the first hint of each letter |
| PuzzleJson.FirstPerLetterLetters | codiac_sandbox/puzzle_types.py:37-45 | the kept hints cover exactly the letters of all the hints |
| PuzzleJson.FirstPerLetterDistinct | codiac_sandbox/puzzle_types.py:39-44 | no two kept hints share a letter |
| PuzzleJson.FirstPerLetterOrder | codiac_sandbox/puzzle_types.py:40-44 | kept hints come in the order in which their letters first occur |
| PuzzleJson.PopAll | codiac_sandbox/puzzle_types.py:63-67 | popping the listed keys moves them, with their values and in list order, into the result and out of the data |
| PuzzleJson.DeleteAll | codiac_sandbox/puzzle_types.py:64-65 | `del data[key]` for each listed key removes those keys |
| PuzzleJson.KeysRemoveAll | codiac_sandbox/puzzle_types.py:64-67 | after the deletions, exactly the other keys remain |
| PuzzleJson.MadeByWellFormed | codiac_sandbox/puzzle_types.py:84-241 | a constructed puzzle's own attributes are those of its class |
| PuzzleJson.StorageSteps | codiac_sandbox/puzzle_types.py:47-61 | the storage branch's two dict unions and the final comprehension give the storage record: class name, label, text, length, then `used` and the attributes that are not None |
| PuzzleJson.FrontendSteps | codiac_sandbox/puzzle_types.py:62-75 | the frontend branch gives label, text, hint list and cipher map, with the remaining non-None attributes under title-cased names in `other_info` |
| PuzzleJson.ToJson | codiac_sandbox/puzzle_types.py:32-75 | `to_json` returns the storage record, or the frontend view when asked for it |
| PuzzleDecode.StorageOfMadeBy | codiac_sandbox/puzzle_types.py:47-61 | the storage record depends only on the constructor call, not on the cipher map or the hints |
| PuzzleDecode.RecordGet | codiac_sandbox/puzzle_types.py:47-75 | the record holds the class name, label, text and length under their keys; `used` and each attribute appear as `str` of their value, and only when that value is not None |
| PuzzleDecode.Persisted | codiac_sandbox/puzzle_types.py:89-247 | the call read back has the same class, with `used` as the string `str(used)` |
| PuzzleDecode.StorageHolds | codiac_sandbox/puzzle_types.py:47-75 | the storage record holds the text, label, `used` and attributes of the call that made it |
| PuzzleDecode.ReadHolds | codiac_sandbox/puzzle_types.py:89-247 | every `from_json`, given a record holding a call's values, returns that call as it persists |
| PuzzleDecode.DecodeListPuzzle | codiac_sandbox/puzzle_types.py:89-95 | a list puzzle is read back with its elements re-split from the stored text |
| PuzzleDecode.DecodeCharacterQuote | codiac_sandbox/puzzle_types.py:113-122 | a character quote is read back with the label's first word as its source type |
| PuzzleDecode.DecodeFamousDocumentQuote | codiac_sandbox/puzzle_types.py:139-151 | a famous document quote is read back from its stored attributes |
| PuzzleDecode.DecodeDirectQuote | codiac_sandbox/puzzle_types.py:166-173 | a direct quote is read back, its missing date as None |
| PuzzleDecode.DecodeGeneralPhrase | codiac_sandbox/puzzle_types.py:184-186 | a general phrase is read back from its text and `used` |
| PuzzleDecode.DecodeSongLyrics | codiac_sandbox/puzzle_types.py:203-211 | song lyrics are read back from their stored attributes |
| PuzzleDecode.DecodeRiddle | codiac_sandbox/puzzle_types.py:224-230 | a riddle is read back with the stored text as its answer |
| PuzzleDecode.DecodeRiddleSolvedInReverse | codiac_sandbox/puzzle_types.py:243-247 | a reverse riddle is read back with the stored text as its question |
| PuzzleDecode.DecodeStorage | codiac_sandbox/puzzle_types.py:47-247 | reading back a puzzle's storage record gives its call as it persists; it fails with `KeyError('used')` exactly when `used` was None |
| PuzzleDecode.UsedPersisted | codiac_sandbox/puzzle_types.py:75 | `used` survives `str()` if and only if it already was a string |
| PuzzleDecode.ElementsPersisted | codiac_sandbox/puzzle_types.py:86-93 | list elements survive join-then-split if and only if each is non-empty and has no whitespace |
| PuzzleDecode.SourceTypePersisted | codiac_sandbox/puzzle_types.py:108-117 | a source type survives if and only if it has no space |
| PuzzleDecode.PersistedUnchanged | codiac_sandbox/puzzle_types.py:84-247 | a call is read back unchanged if and only if it is lossless (string `used`, clean list words, one-word source type) |
| PuzzleDecode.StorageRoundTrip | codiac_sandbox/puzzle_types.py:32-247 | the save/load round trip returns the very call that made a puzzle if and only if that call is lossless |
| PuzzleDecode.PersistedLossless | codiac_sandbox/puzzle_types.py:84-247 | a second save and load changes nothing further |
| PuzzleDecode.StorageKeys | codiac_sandbox/puzzle_types.py:47-75 | the record names the class and the text's length, omits hints and cipher map, and has `used` if and only if it is not None |
| PuzzleDecode.StorageReserved | codiac_sandbox/puzzle_types.py:47-75 | the value under each key of the storage record, reserved or not |
| PuzzleDecode.StorageDropped | codiac_sandbox/puzzle_types.py:58-61 | a key the storage branch sets to None is not in the record |
| PuzzleDecode.DirectQuoteWithoutDate | codiac_sandbox/puzzle_types.py:159-173 | a direct quote made without a date has no date in either record: the storage record has no `date` key, and `other_info` holds the author alone |
| PuzzleDecode.OtherInfoKeys | codiac_sandbox/puzzle_types.py:69-73 | the names in `other_info` are exactly the title-cased, underscore-free names of the attributes whose value is not None |
| PuzzleDecode.DirectQuoteFrontend | codiac_sandbox/puzzle_types.py:62-75 | the frontend view of a direct quote made without a date shows only `Author` in `other_info` |
| PuzzleDecode.FromJsonNeedsUsed | codiac_sandbox/puzzle_types.py:89-247 | every `from_json` fails on a record without `used` |
| PuzzleDecode.FrontendKeysOf | codiac_sandbox/puzzle_types.py:62-73 | the frontend view has exactly the keys label, text, hints, cipher map and `other_info`, in that order |
| PuzzleDecode.FrontendUnreadable | codiac_sandbox/puzzle_types.py:62-73 | the frontend view has no `type` and no `used`, so no `from_json` can read it |
| PuzzleDecode.RecordUsedReencoded | codiac_sandbox/puzzle_types.py:75 | writing a read-back `used` again gives the same record |
| PuzzleDecode.StorageReencoded | codiac_sandbox/puzzle_types.py:32-247 | re-saving a read-back puzzle gives the same record always for six classes, for a character quote if and only if its source type has no space, and for a list if and only if re-splitting and re-joining its text gives the text back (so always for clean words) |
| Registry.AddSubclasses | codiac_sandbox/utils/puzzle_classes.py:12-15 | one pass adds every direct subclass of the popped class, pushes exactly the newly added ones, and adds only classes below the root |
| Registry.GetAllSubclasses | codiac_sandbox/utils/puzzle_classes.py:7-16 | the result is exactly the set of classes reachable through one or more subclass steps, so it excludes the root unless a cycle leads back to it; the loop ends on any finite hierarchy |
| Registry.PuzzleSubclasses | codiac_sandbox/utils/puzzle_classes.py:22 | below `CryptographBase` lie exactly the eight puzzle classes, not the base and none of the quote module's classes |
| Registry.NameInjective | codiac_sandbox/utils/puzzle_classes.py:21 | no two puzzle classes share a name |
| Registry.SortPermutes | codiac_sandbox/utils/puzzle_classes.py:20 | `sorted` returns a permutation of its input |
| Registry.SortAscending | codiac_sandbox/utils/puzzle_classes.py:20 | with distinct names, `sorted` orders the entries by strictly ascending name |
| Registry.SortOrderFree | codiac_sandbox/utils/puzzle_classes.py:19-24 | sorting gives the same list whatever order the set handed the classes over in |
| Registry.AscendingDistinct | codiac_sandbox/utils/puzzle_classes.py:19-24 | `dict(...)` of the sorted entries loses none of them |
| Registry.LoadPuzzleClasses | codiac_sandbox/utils/puzzle_classes.py:19-24 | building the registry from `get_all_subclasses(CryptographBase)` gives the same dict for every set order |
| Registry.RegistryOfOrder | codiac_sandbox/utils/puzzle_classes.py:19-24 | `dict(sorted(...))` over the eight classes, taken in any order, is the registry |
| Registry.SortedEntries | codiac_sandbox/utils/puzzle_classes.py:19-24 | sorted entries of distinct classes: ascending, one per class, each class under its own name |
| Registry.RegistryContents | codiac_sandbox/utils/puzzle_classes.py:19-24 | the registry has eight entries in ascending name order; each class's name maps to that class |
| Registry.ParseOutcome | codiac_sandbox/utils/puzzle_classes.py:33-35 | no `type` gives `KeyError('type')`; an unregistered name gives `KeyError` of that name; a class name is read by that class's `from_json` |
| Registry.ParseStorage | codiac_sandbox/utils/puzzle_classes.py:33-35 | `parse_puzzle` on a storage record gives the call that made the puzzle, as it persists |
| Registry.ParseFrontend | codiac_sandbox/utils/puzzle_classes.py:33-35 | `parse_puzzle` rejects every frontend view with `KeyError('type')` |
| Parameters.WithoutKeys | codiac_sandbox/crud/create.py:19-27 | after the deletions, a name is left if and only if the signature had it and it is not excluded |
| Parameters.DeleteStep | codiac_sandbox/crud/create.py:26-27 | deleting a name only when present equals excluding it as well |
| Parameters.DeleteNames | codiac_sandbox/crud/create.py:19-27 | the loop removes exactly the names of the set, whatever order it iterates in, and keeps the rest in signature order |
| Parameters.GetPuzzleParameters | codiac_sandbox/crud/create.py:16-29 | looks up the class and returns its signature without the excluded names, or `KeyError` of the puzzle type |
| Parameters.ParametersKeys | codiac_sandbox/crud/create.py:16-29 | fails with `KeyError(puzzle_type)` exactly for unregistered names; otherwise keeps exactly the non-excluded parameters |
| Parameters.InitParamNames | codiac_sandbox/puzzle_types.py:84-239 | no constructor parameter after `self` has an excluded name, and `used` is the last one |
| Parameters.ParametersOfClass | codiac_sandbox/crud/create.py:16-29 | for each class the result is its constructor's parameters after `self`, in declaration order, and `used` is among them |
| Legacy.LegacyFields | codiac_sandbox/quote_types.py:23-83 | each older constructor assigns exactly its class's attributes, in order |
| Legacy.LegacyInitBase | codiac_sandbox/quote_types.py:7-20 | the older base keeps the text, defaults the label to "Undefined", and appends one hint per character of the lower-cased text after the supplied hints |
| Legacy.LegacyConstruct | codiac_sandbox/quote_types.py:23-83 | each older constructor passes its text and label with no hints, then sets its own attributes |
| Legacy.LegacyHintCount | codiac_sandbox/quote_types.py:18-20 | the older base makes as many new hints as the text has characters, as a rearrangement of the per-character hints |
| Legacy.LegacyHintMember | codiac_sandbox/quote_types.py:18-20 | a hint is added if and only if it holds one character of the lower-cased text |
| Legacy.LegacyHintsVersusFresh | codiac_sandbox/quote_types.py:18-20 | every character of the lower-cased text gets an older hint, but a newer hint only when it is a letter |
| Legacy.LegacyAttributes | codiac_sandbox/quote_types.py:7-83 | an older puzzle has no `encryption_map` and no `used` attribute |
| Legacy.LegacyLabelsAgree | codiac_sandbox/quote_types.py:66-71 | the older labels equal the newer ones for every class except song lyrics ("Song Lyric" against "Song lyrics") |

## Left out

- Reading the icon pool from `resources/icon-list.json` (codiac_sandbox/utils/make_letter_map.py:5-6) is file I/O. The pool is a parameter.
- The random module is not modelled. Its results are inputs: the positions `random.sample` picks and the draws `random.shuffle` makes.
- Python's set iteration order is not modelled either. Where the code iterates a set, the order is an input.
- The `**kwargs` loop of the base constructor (codiac_sandbox/puzzle_types.py:29-30) is not modelled. No constructor of the core passes extra keyword arguments.
- PuzzleJson.ToJson: stated only for puzzles whose own attributes are those of their class. Every constructor leaves a puzzle so (PuzzleJson.MadeByWellFormed); only the unmodelled `**kwargs` could add others.
- `isinstance(hint, GiveALetterHint)` (codiac_sandbox/puzzle_types.py:41) always holds. The letter hint is the only hint class.
- `str()` of a list or a dict follows the shape of Python's `repr` (brackets, braces, separators, quoted strings). It does not model Python's escaping or its choice of quote character.
- `lower()` and `title()` are modelled for ASCII. Unicode case mapping is left out.
- Puzzles.FromJson: returns the constructor call that each class's `from_json` makes, not the object. Running that call, which draws a new cipher map and new hints and raises `ValueError` for a pool of fewer than 26 icons, is `Puzzles.Construct` applied to the returned call; the two are not composed here, and the same holds for `Registry.ParsePuzzle`.
- Puzzles.FromJson: records carry string values, as `to_json` writes them: its last step applies `str` to every value (codiac_sandbox/puzzle_types.py:75). A hand-edited record with a non-string value (for example `"used": true`) is not modelled; the same holds for the eight per-class `from_json` members and `Registry.ParsePuzzle`.
- `from_json` in codiac_sandbox/utils/puzzle_classes.py:29-30 only calls the class's own `from_json`. It is `Puzzles.FromJson` itself and gets no member of its own.
- Registry.GetAllSubclasses runs over finite hierarchies. The model builds the registry from the two hierarchies the core defines, not from Python's runtime class graph.
- The `used` parameter of `FamousDocumentQuote.from_json` (codiac_sandbox/puzzle_types.py:143) is never read, so the model's `from_json` has none.
- `save_puzzle` (codiac_sandbox/crud/create.py:8-13) is not part of this model. It is file I/O around a constructor call and `to_json`.
- codiac_sandbox/crud/create.py as written fails to import: the circular import through codiac_sandbox/gui/new_puzzle_modal.py:15 raises `ImportError`, and the missing `import inspect` would then raise `NameError` at line 16. The model gives the intended filtering of the signature.
- The GUI, the date selection and the scripts are not part of this model.
