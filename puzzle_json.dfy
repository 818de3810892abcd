/**
 * `CryptographBase.to_json`: the hint de-duplication loop, the storage
 * record and the frontend record, each proved equal to a closed form, and
 * the properties of those records: which keys they carry, and what each
 * variant's `from_json` makes of a storage record.
 */
module PuzzleJson {
  import opened Wrappers
  import opened Seqs
  import opened Text
  import opened PyValues
  import opened Dicts
  import opened Hints
  import opened Puzzles

  /** A dict of strings as a Python value. */
  function TextDict(d: Dict<string, string>): (r: Dict<string, PyVal>)
    ensures |r| == |d| && forall i :: 0 <= i < |d| ==> r[i] == (d[i].0, PStr(d[i].1))
  {
    if d == [] then [] else [(d[0].0, PStr(d[0].1))] + TextDict(d[1..])
  }

  /** `hint.to_json()`, as an element of the list that replaces `data["hints"]`. */
  function HintValue(h: Hint): PyVal {
    PDict(TextDict(Hints.ToJson(h)))
  }

  function HintValues(hs: seq<Hint>): (r: seq<PyVal>)
    ensures |r| == |hs| && forall i :: 0 <= i < |hs| ==> r[i] == HintValue(hs[i])
  {
    if hs == [] then [] else [HintValue(hs[0])] + HintValues(hs[1..])
  }

  lemma HintValuesAppend(hs: seq<Hint>, h: Hint)
    ensures HintValues(hs + [h]) == HintValues(hs) + [HintValue(h)]
  {
  }

  /** The position of the first occurrence of `l` in `ls`. */
  function FirstIndex(ls: seq<string>, l: string): (i: nat)
    requires l in ls
    ensures i < |ls| && ls[i] == l && l !in ls[..i]
  {
    if ls[0] == l then 0
    else
      var j := FirstIndex(ls[1..], l);
      assert ls[..j + 1] == [ls[0]] + ls[1..][..j];
      j + 1
  }

  lemma FirstIndexUnique(ls: seq<string>, l: string, i: nat)
    requires i < |ls| && ls[i] == l && l !in ls[..i]
    ensures FirstIndex(ls, l) == i
  {
  }

  /** A first occurrence stays first when the sequence grows at the end. */
  lemma FirstIndexExtend(ls: seq<string>, x: string, l: string)
    requires l in ls
    ensures FirstIndex(ls + [x], l) == FirstIndex(ls, l)
  {
    var i := FirstIndex(ls, l);
    assert (ls + [x])[..i] == ls[..i];
    FirstIndexUnique(ls + [x], l, i);
  }

  lemma LettersOfAppend(hs: seq<Hint>, h: Hint)
    ensures LettersOf(hs + [h]) == LettersOf(hs) + [h.letter]
  {
  }

  /**
   * The hints the loop in `to_json` keeps: a hint is kept when no hint kept
   * before it carries the same letter.
   */
  function FirstPerLetter(hs: seq<Hint>): seq<Hint>
    decreases |hs|
  {
    if hs == [] then []
    else
      var kept := FirstPerLetter(hs[..|hs| - 1]);
      if hs[|hs| - 1].letter in LettersOf(kept) then kept else kept + [hs[|hs| - 1]]
  }

  /** One more hint: kept exactly when its letter is new. */
  lemma FirstPerLetterSnoc(hs: seq<Hint>, h: Hint)
    ensures FirstPerLetter(hs + [h]) == if h.letter in LettersOf(FirstPerLetter(hs))
                                          then FirstPerLetter(hs)
                                          else FirstPerLetter(hs) + [h]
  {
    assert (hs + [h])[..|hs|] == hs;
  }

  /** The kept hints cover exactly the letters of the input. */
  lemma {:induction false} FirstPerLetterLetters(hs: seq<Hint>)
    ensures Elements(LettersOf(FirstPerLetter(hs))) == Elements(LettersOf(hs))
    decreases |hs|
  {
    if hs != [] {
      var n := |hs| - 1;
      var init, h := hs[..n], hs[n];
      assert hs == init + [h];
      FirstPerLetterLetters(init);
      FirstPerLetterSnoc(init, h);
      LettersOfAppend(init, h);
      var kept := FirstPerLetter(init);
      ElementsAppend(LettersOf(init), h.letter);
      if h.letter !in LettersOf(kept) {
        LettersOfAppend(kept, h);
        ElementsAppend(LettersOf(kept), h.letter);
      } else {
        assert h.letter in Elements(LettersOf(kept));
      }
    }
  }

  /** No two kept hints carry the same letter. */
  lemma {:induction false} FirstPerLetterDistinct(hs: seq<Hint>)
    ensures Distinct(LettersOf(FirstPerLetter(hs)))
    decreases |hs|
  {
    if hs != [] {
      var n := |hs| - 1;
      var init, h := hs[..n], hs[n];
      assert hs == init + [h];
      FirstPerLetterDistinct(init);
      FirstPerLetterSnoc(init, h);
      var kept := FirstPerLetter(init);
      if h.letter !in LettersOf(kept) {
        LettersOfAppend(kept, h);
        var ls := LettersOf(kept) + [h.letter];
        forall i, j | 0 <= i < j < |ls| ensures ls[i] != ls[j] {
          if j == |ls| - 1 {
            assert ls[i] in LettersOf(kept);
          }
        }
      }
    }
  }

  /** Every kept hint's letter occurs in the input. */
  lemma FirstPerLetterMember(hs: seq<Hint>)
    ensures forall i :: 0 <= i < |FirstPerLetter(hs)| ==> FirstPerLetter(hs)[i].letter in LettersOf(hs)
  {
    FirstPerLetterLetters(hs);
    var r := FirstPerLetter(hs);
    forall i | 0 <= i < |r| ensures r[i].letter in LettersOf(hs) {
      assert LettersOf(r)[i] == r[i].letter;
      assert r[i].letter in Elements(LettersOf(r));
    }
  }

  /** The kept hints come in the order in which their letters first occur in the input. */
  lemma {:induction false} FirstPerLetterOrder(hs: seq<Hint>)
    ensures forall i :: 0 <= i < |FirstPerLetter(hs)| ==> FirstPerLetter(hs)[i].letter in LettersOf(hs)
    ensures forall i, j :: 0 <= i < j < |FirstPerLetter(hs)| ==>
              FirstIndex(LettersOf(hs), FirstPerLetter(hs)[i].letter)
              < FirstIndex(LettersOf(hs), FirstPerLetter(hs)[j].letter)
    decreases |hs|
  {
    FirstPerLetterMember(hs);
    if hs != [] {
      var n := |hs| - 1;
      var init, h := hs[..n], hs[n];
      assert hs == init + [h];
      FirstPerLetterOrder(init);
      FirstPerLetterSnoc(init, h);
      LettersOfAppend(init, h);
      var kept, li, l := FirstPerLetter(init), LettersOf(init), LettersOf(hs);
      var r := FirstPerLetter(hs);
      assert l == li + [h.letter];
      forall i | 0 <= i < |kept| ensures FirstIndex(l, kept[i].letter) == FirstIndex(li, kept[i].letter) {
        FirstIndexExtend(li, h.letter, kept[i].letter);
      }
      if h.letter !in LettersOf(kept) {
        FirstPerLetterLetters(init);
        assert h.letter !in li by {
          assert h.letter !in Elements(LettersOf(kept));
        }
        assert l[..n] == li;
        FirstIndexUnique(l, h.letter, n);
        forall i, j | 0 <= i < j < |r| ensures FirstIndex(l, r[i].letter) < FirstIndex(l, r[j].letter) {
          if j == |kept| {
            assert r[i] == kept[i] && r[j] == h;
          } else {
            assert r[i] == kept[i] && r[j] == kept[j];
          }
        }
      }
    }
  }

  /** The loop over `data["hints"]`, with the set of letters seen so far. */
  method DedupHints(hs: seq<Hint>) returns (json: seq<PyVal>)
    ensures json == HintValues(FirstPerLetter(hs))
  {
    var seen: set<string> := {};
    json := [];
    ghost var kept: seq<Hint> := [];
    for i := 0 to |hs|
      invariant kept == FirstPerLetter(hs[..i])
      invariant seen == Elements(LettersOf(kept))
      invariant json == HintValues(kept)
    {
      var hint := hs[i];
      PrefixSnoc(hs, i);
      FirstPerLetterSnoc(hs[..i], hint);
      assert hint.letter in seen <==> hint.letter in LettersOf(kept);
      if hint.letter !in seen {
        LettersOfAppend(kept, hint);
        ElementsAppend(LettersOf(kept), hint.letter);
        HintValuesAppend(kept, hint);
        seen := seen + {hint.letter};
        json := json + [HintValue(hint)];
        kept := kept + [hint];
      }
    }
    assert hs[..|hs|] == hs;
  }

  /** `data` after `del data[key]` for each key of `keys`, in order. */
  function RemoveAll(data: Dict<string, PyVal>, keys: seq<string>): Dict<string, PyVal>
    decreases |keys|
  {
    if keys == [] then data else Remove(RemoveAll(data, keys[..|keys| - 1]), keys[|keys| - 1])
  }

  /** `d[k]` where `k` is known to be a key. */
  function ValueAt(d: Dict<string, PyVal>, k: string): PyVal {
    match Get(d, k)
    case Some(v) => v
    case None => PNone
  }

  /** The keys of `keys` with their values in `data`, in the order of `keys`. */
  function Picked(data: Dict<string, PyVal>, keys: seq<string>): (r: Dict<string, PyVal>)
    ensures Keys(r) == keys
    decreases |keys|
  {
    if keys == [] then []
    else
      var n := |keys| - 1;
      var front := Picked(data, keys[..n]);
      KeysConcat(front, [(keys[n], ValueAt(data, keys[n]))]);
      front + [(keys[n], ValueAt(data, keys[n]))]
  }

  lemma PickedStep(data: Dict<string, PyVal>, keys: seq<string>, i: nat)
    requires i < |keys|
    ensures Picked(data, keys[..i + 1]) == Picked(data, keys[..i]) + [(keys[i], ValueAt(data, keys[i]))]
  {
    assert keys[..i + 1][..i] == keys[..i];
  }

  /** Deleting keys other than `k` leaves `k` and its value where they were. */
  lemma {:induction false} GetRemoveAll(data: Dict<string, PyVal>, keys: seq<string>, k: string)
    requires k !in keys
    ensures Get(RemoveAll(data, keys), k) == Get(data, k)
    ensures k in Keys(RemoveAll(data, keys)) <==> k in Keys(data)
    decreases |keys|
  {
    if keys != [] {
      var n := |keys| - 1;
      assert k !in keys[..n] && k != keys[n];
      GetRemoveAll(data, keys[..n], k);
      GetRemove(RemoveAll(data, keys[..n]), k, keys[n]);
    }
    GetKeys(RemoveAll(data, keys), k);
    GetKeys(data, k);
  }

  /** One iteration of the loop below. */
  lemma PopStep(data: Dict<string, PyVal>, keys: seq<string>, i: nat)
    requires i < |keys| && keys[i] !in keys[..i] && keys[i] in Keys(data)
    ensures Get(RemoveAll(data, keys[..i]), keys[i]) == Some(ValueAt(data, keys[i]))
    ensures Put(Picked(data, keys[..i]), keys[i], ValueAt(data, keys[i])) == Picked(data, keys[..i + 1])
    ensures Remove(RemoveAll(data, keys[..i]), keys[i]) == RemoveAll(data, keys[..i + 1])
  {
    PickedStep(data, keys, i);
    GetRemoveAll(data, keys[..i], keys[i]);
    GetKeys(data, keys[i]);
    assert keys[..i + 1][..i] == keys[..i];
  }

  /**
   * `res = {}` and then `for key in keys: res[key] = data.pop(key)`: the keys
   * move, with their values and in list order, from `data` to `res`.
   */
  method PopAll(data: Dict<string, PyVal>, keys: seq<string>)
    returns (res: Dict<string, PyVal>, data': Dict<string, PyVal>)
    requires Distinct(keys)
    requires forall i :: 0 <= i < |keys| ==> keys[i] in Keys(data)
    ensures res == Picked(data, keys)
    ensures data' == RemoveAll(data, keys)
  {
    res, data' := [], data;
    for i := 0 to |keys|
      invariant res == Picked(data, keys[..i])
      invariant data' == RemoveAll(data, keys[..i])
    {
      var key := keys[i];
      assert key !in keys[..i] by {
        forall j | 0 <= j < i ensures keys[j] != key {}
      }
      PopStep(data, keys, i);
      var value := Get(data', key).value;
      res := Put(res, key, value);
      data' := Remove(data', key);
    }
    assert keys[..|keys|] == keys;
  }

  /** `for key in keys: del data[key]`. */
  method DeleteAll(data: Dict<string, PyVal>, keys: seq<string>) returns (data': Dict<string, PyVal>)
    requires Distinct(keys)
    requires forall i :: 0 <= i < |keys| ==> keys[i] in Keys(data)
    ensures data' == RemoveAll(data, keys)
  {
    data' := data;
    for i := 0 to |keys|
      invariant data' == RemoveAll(data, keys[..i])
    {
      assert keys[..i + 1][..i] == keys[..i];
      data' := Remove(data', keys[i]);
    }
    assert keys[..|keys|] == keys;
  }

  /** `del data[key]` for each key of `keys` leaves exactly the other keys. */
  lemma {:induction false} KeysRemoveAll(data: Dict<string, PyVal>, keys: seq<string>, x: string)
    ensures x in Keys(RemoveAll(data, keys)) <==> x in Keys(data) && x !in keys
    decreases |keys|
  {
    if keys != [] {
      var n := |keys| - 1;
      KeysRemoveAll(data, keys[..n], x);
      KeysRemove(RemoveAll(data, keys[..n]), keys[n], x);
      assert x in keys <==> x in keys[..n] || x == keys[n] by {
        assert keys == keys[..n] + [keys[n]];
      }
    }
  }

  lemma {:induction false} RemoveAllConcat(a: Dict<string, PyVal>, b: Dict<string, PyVal>, keys: seq<string>)
    requires forall i :: 0 <= i < |keys| ==> keys[i] !in Keys(b)
    ensures RemoveAll(a + b, keys) == RemoveAll(a, keys) + b
    decreases |keys|
  {
    if keys != [] {
      var n := |keys| - 1;
      RemoveAllConcat(a, b, keys[..n]);
      RemoveConcat(RemoveAll(a, keys[..n]), b, keys[n]);
    }
  }

  /** A cipher map as the Python dict it is: one-letter string keys, icon values. */
  function MapEntries(m: Dict<char, string>): (r: Dict<string, PyVal>)
    ensures |r| == |m| && forall i :: 0 <= i < |m| ==> r[i] == ([m[i].0], PStr(m[i].1))
  {
    if m == [] then [] else [([m[0].0], PStr(m[0].1))] + MapEntries(m[1..])
  }

  /** The keys `to_json` writes or drops besides a variant's own attributes. */
  const ReservedKeys: seq<string> :=
    ["type", "puzzle_type", "string_to_encrypt", "length", "encryption_map", "hints", "used"]

  /** Every variant's attribute names are distinct and none is a reserved key. */
  lemma FieldNamesFresh(k: Kind)
    ensures Distinct(ReservedKeys + FieldNames(k))
    ensures "other_info" !in FieldNames(k)
  {
    var f := FieldNames(k);
    assert Distinct(ReservedKeys);
    assert Distinct(f);
    assert forall i :: 0 <= i < |f| ==> f[i] !in ReservedKeys;
    DistinctConcat(ReservedKeys, f);
  }

  /** The base attributes in the order the base constructor assigns them. */
  const BaseKeys: seq<string> := ["string_to_encrypt", "puzzle_type", "encryption_map", "hints", "used"]

  lemma BaseKeysFresh(k: Kind)
    ensures Distinct(BaseKeys + FieldNames(k))
  {
    var f := FieldNames(k);
    assert Distinct(BaseKeys);
    assert Distinct(f);
    assert forall i :: 0 <= i < |f| ==> f[i] !in BaseKeys;
    DistinctConcat(BaseKeys, f);
  }

  /** A puzzle object as the constructors leave it: its own attributes are those of its class. */
  predicate WellFormed(p: Puzzle) {
    Keys(p.fields) == FieldNames(p.kind)
  }

  lemma MadeByWellFormed(p: Puzzle, c: Ctor)
    requires MadeBy(p, c)
    ensures WellFormed(p)
  {
  }

  /** `self.__dict__.copy()` once `data["hints"]` holds the de-duplicated list `hints`. */
  function Attributes(p: Puzzle, hints: PyVal): Dict<string, PyVal> {
    [("string_to_encrypt", PStr(p.base.stringToEncrypt)), ("puzzle_type", PStr(p.base.puzzleType))]
    + ([("encryption_map", PDict(MapEntries(p.base.encryptionMap))), ("hints", hints), ("used", p.base.used)]
       + p.fields)
  }

  /** `{k: str(v) for k, v in res.items() if v is not None}`. */
  function Finalize(res: Dict<string, PyVal>): Dict<string, string> {
    if res == [] then []
    else (if res[0].1 == PNone then [] else [(res[0].0, Str(res[0].1))]) + Finalize(res[1..])
  }

  lemma {:induction false} FinalizeConcat(a: Dict<string, PyVal>, b: Dict<string, PyVal>)
    ensures Finalize(a + b) == Finalize(a) + Finalize(b)
  {
    if a != [] {
      assert (a + b)[1..] == a[1..] + b;
      FinalizeConcat(a[1..], b);
    } else {
      assert a + b == b;
    }
  }

  /**
   * A storage record: the class name, the label, the text and its length in
   * decimal, then `used` and the variant's attributes wherever they are not None.
   */
  function StorageRecord(k: Kind, puzzleType: string, text: string, used: PyVal,
                         fields: Dict<string, PyVal>): Dict<string, string> {
    [("type", Name(k)), ("puzzle_type", puzzleType), ("string_to_encrypt", text),
     ("length", NatToString(|text|))]
    + Finalize([("used", used)] + fields)
  }

  /** What `to_json()` returns for `p`. */
  function StorageJson(p: Puzzle): Dict<string, string> {
    StorageRecord(p.kind, p.base.puzzleType, p.base.stringToEncrypt, p.base.used, p.fields)
  }

  /** `k.replace("_", " ").title(): str(v)` for each attribute whose value is not None. */
  function OtherInfo(data: Dict<string, PyVal>): Dict<string, PyVal> {
    if data == [] then []
    else
      (if data[0].1 == PNone then [] else [(Title(ReplaceUnderscores(data[0].0)), PStr(Str(data[0].1)))])
      + OtherInfo(data[1..])
  }

  /** The de-duplicated hint list, as stored and as shown. */
  function HintList(p: Puzzle): PyVal {
    PList(HintValues(FirstPerLetter(p.base.hints)))
  }

  /**
   * What `to_json(to_read_from_frontend=True)` returns for `p`: label, text,
   * hint list and cipher map, and every other non-None attribute under a
   * title-cased name in `other_info`. There is no `type`, `length` or `used`.
   */
  function FrontendJson(p: Puzzle): Dict<string, string> {
    [("puzzle_type", p.base.puzzleType), ("string_to_encrypt", p.base.stringToEncrypt),
     ("hints", Str(HintList(p))), ("encryption_map", Str(PDict(MapEntries(p.base.encryptionMap)))),
     ("other_info", Str(PDict(Union([], OtherInfo(p.fields)))))]
  }

  /** The four entries the storage branch puts in front of the attributes. */
  function StorageHead(p: Puzzle): Dict<string, PyVal> {
    [("type", PStr(Name(p.kind))), ("puzzle_type", PStr(p.base.puzzleType)),
     ("string_to_encrypt", PStr(p.base.stringToEncrypt)), ("length", PInt(|p.base.stringToEncrypt|))]
  }

  /**
   * The storage branch's two unions on a dict of the attributes' shape, with the
   * keys left abstract: `k0`..`k6` stand for the reserved keys in the order the
   * result lists them, and `f` for the variant's own attributes.
   */
  function Seven<K, V>(k0: K, k1: K, k2: K, k3: K, k4: K, k5: K, k6: K,
                       v0: V, v1: V, v2: V, v3: V, v4: V, v5: V, v6: V): Dict<K, V>
  {
    [(k0, v0), (k1, v1), (k2, v2), (k3, v3), (k4, v4), (k5, v5), (k6, v6)]
  }

  lemma SevenKeys<K, V>(k0: K, k1: K, k2: K, k3: K, k4: K, k5: K, k6: K,
                        v0: V, v1: V, v2: V, v3: V, v4: V, v5: V, v6: V, f: Dict<K, V>)
    requires Distinct([k0, k1, k2, k3, k4, k5, k6] + Keys(f))
    ensures DistinctKeys(Seven(k0, k1, k2, k3, k4, k5, k6, v0, v1, v2, v3, v4, v5, v6) + f)
  {
    var r := Seven(k0, k1, k2, k3, k4, k5, k6, v0, v1, v2, v3, v4, v5, v6);
    assert Keys(r) == [k0, k1, k2, k3, k4, k5, k6];
    KeysConcat(r, f);
  }

  /** Putting an entry a dict already holds changes nothing. */
  lemma UnionOverwriteSame<K, V>(h: Dict<K, V>, i: nat, b: Dict<K, V>)
    requires i < |h| && DistinctKeys(h)
    ensures Union(h, [h[i]] + b) == Union(h, b)
  {
    PutAt(h, i, h[i].1);
    assert h[i := h[i]] == h;
    assert ([h[i]] + b)[1..] == b;
  }

  lemma HeadKeys<K, V>(k0: K, k1: K, k2: K, k3: K, k4: K, k5: K, k6: K, v0: V, v1: V, v2: V, v3: V,
                       f: Dict<K, V>)
    requires Distinct([k0, k1, k2, k3, k4, k5, k6] + Keys(f))
    ensures DistinctKeys([(k0, v0), (k1, v1), (k2, v2), (k3, v3)])
  {
    var ks := [k0, k1, k2, k3, k4, k5, k6] + Keys(f);
    assert Keys([(k0, v0), (k1, v1), (k2, v2), (k3, v3)]) == ks[..4];
  }

  /** The first two attributes repeat entries of the head. */
  lemma HeadOverwrites<K, V>(h: Dict<K, V>, b: Dict<K, V>)
    requires |h| == 4 && DistinctKeys(h)
    ensures Union(h, [h[2], h[1]] + b) == Union(h, b)
  {
    assert [h[2], h[1]] + b == [h[2]] + ([h[1]] + b);
    UnionOverwriteSame(h, 2, [h[1]] + b);
    UnionOverwriteSame(h, 1, b);
  }

  lemma SevenSplit<K, V>(k0: K, k1: K, k2: K, k3: K, k4: K, k5: K, k6: K,
                         v0: V, v1: V, v2: V, v3: V, v4: V, v5: V, v6: V, f: Dict<K, V>)
    ensures [(k0, v0), (k1, v1), (k2, v2), (k3, v3)] + ([(k4, v4), (k5, v5), (k6, v6)] + f)
            == Seven(k0, k1, k2, k3, k4, k5, k6, v0, v1, v2, v3, v4, v5, v6) + f
  {
    var h, m := [(k0, v0), (k1, v1), (k2, v2), (k3, v3)], [(k4, v4), (k5, v5), (k6, v6)];
    AppendAssoc(h, m, f);
    assert h + m == Seven(k0, k1, k2, k3, k4, k5, k6, v0, v1, v2, v3, v4, v5, v6);
  }

  /** `dict(type=..., puzzle_type=..., string_to_encrypt=..., length=...) | data`. */
  lemma HeadUnion<K, V>(k0: K, k1: K, k2: K, k3: K, k4: K, k5: K, k6: K,
                        v0: V, v1: V, v2: V, v3: V, v4: V, v5: V, v6: V, f: Dict<K, V>)
    requires Distinct([k0, k1, k2, k3, k4, k5, k6] + Keys(f))
    ensures Union([(k0, v0), (k1, v1), (k2, v2), (k3, v3)],
                  [(k2, v2), (k1, v1)] + ([(k4, v4), (k5, v5), (k6, v6)] + f))
            == Seven(k0, k1, k2, k3, k4, k5, k6, v0, v1, v2, v3, v4, v5, v6) + f
  {
    var h, m := [(k0, v0), (k1, v1), (k2, v2), (k3, v3)], [(k4, v4), (k5, v5), (k6, v6)];
    HeadKeys(k0, k1, k2, k3, k4, k5, k6, v0, v1, v2, v3, f);
    HeadOverwrites(h, m + f);
    SevenSplit(k0, k1, k2, k3, k4, k5, k6, v0, v1, v2, v3, v4, v5, v6, f);
    SevenKeys(k0, k1, k2, k3, k4, k5, k6, v0, v1, v2, v3, v4, v5, v6, f);
    UnionDisjoint(h, m + f);
  }

  /** `res |= dict(hints=None, encryption_map=None)`, here `{k5: none, k4: none}`. */
  lemma NonesUnion<K, V>(k0: K, k1: K, k2: K, k3: K, k4: K, k5: K, k6: K,
                         v0: V, v1: V, v2: V, v3: V, v4: V, v5: V, v6: V, none: V, f: Dict<K, V>)
    requires Distinct([k0, k1, k2, k3, k4, k5, k6] + Keys(f))
    ensures Union(Seven(k0, k1, k2, k3, k4, k5, k6, v0, v1, v2, v3, v4, v5, v6) + f, [(k5, none), (k4, none)])
            == Seven(k0, k1, k2, k3, k4, k5, k6, v0, v1, v2, v3, none, none, v6) + f
  {
    UnionTwo(Seven(k0, k1, k2, k3, k4, k5, k6, v0, v1, v2, v3, v4, v5, v6) + f, (k5, none), (k4, none));
    SevenKeys(k0, k1, k2, k3, k4, k5, k6, v0, v1, v2, v3, v4, v5, v6, f);
    SevenPut5(k0, k1, k2, k3, k4, k5, k6, v0, v1, v2, v3, v4, v5, v6, none, f);
    SevenKeys(k0, k1, k2, k3, k4, k5, k6, v0, v1, v2, v3, v4, none, v6, f);
    SevenPut4(k0, k1, k2, k3, k4, k5, k6, v0, v1, v2, v3, v4, none, v6, none, f);
  }

  /** Putting the sixth key of the seven. */
  lemma SevenPut5<K, V>(k0: K, k1: K, k2: K, k3: K, k4: K, k5: K, k6: K,
                        v0: V, v1: V, v2: V, v3: V, v4: V, v5: V, v6: V, x: V, f: Dict<K, V>)
    requires DistinctKeys(Seven(k0, k1, k2, k3, k4, k5, k6, v0, v1, v2, v3, v4, v5, v6) + f)
    ensures Put(Seven(k0, k1, k2, k3, k4, k5, k6, v0, v1, v2, v3, v4, v5, v6) + f, k5, x)
            == Seven(k0, k1, k2, k3, k4, k5, k6, v0, v1, v2, v3, v4, x, v6) + f
  {
    var r := Seven(k0, k1, k2, k3, k4, k5, k6, v0, v1, v2, v3, v4, v5, v6);
    PutAtConcat(r, f, 5, x);
    assert r[5 := (k5, x)] == Seven(k0, k1, k2, k3, k4, k5, k6, v0, v1, v2, v3, v4, x, v6);
  }

  /** Putting the fifth key of the seven. */
  lemma SevenPut4<K, V>(k0: K, k1: K, k2: K, k3: K, k4: K, k5: K, k6: K,
                        v0: V, v1: V, v2: V, v3: V, v4: V, v5: V, v6: V, x: V, f: Dict<K, V>)
    requires DistinctKeys(Seven(k0, k1, k2, k3, k4, k5, k6, v0, v1, v2, v3, v4, v5, v6) + f)
    ensures Put(Seven(k0, k1, k2, k3, k4, k5, k6, v0, v1, v2, v3, v4, v5, v6) + f, k4, x)
            == Seven(k0, k1, k2, k3, k4, k5, k6, v0, v1, v2, v3, x, v5, v6) + f
  {
    var r := Seven(k0, k1, k2, k3, k4, k5, k6, v0, v1, v2, v3, v4, v5, v6);
    PutAtConcat(r, f, 4, x);
    assert r[4 := (k4, x)] == Seven(k0, k1, k2, k3, k4, k5, k6, v0, v1, v2, v3, x, v5, v6);
  }

  lemma UnionTwo<K, V>(x: Dict<K, V>, a: (K, V), b: (K, V))
    ensures Union(x, [a, b]) == Put(Put(x, a.0, a.1), b.0, b.1)
  {
    assert [a, b][1..] == [b];
    assert [b][1..] == [];
    assert Union(x, [a, b]) == Union(Put(x, a.0, a.1), [b]);
    assert Union(Put(x, a.0, a.1), [b]) == Union(Put(Put(x, a.0, a.1), b.0, b.1), []);
  }

  lemma FinalizeCons(e: (string, PyVal), d: Dict<string, PyVal>)
    ensures Finalize([e] + d) == (if e.1 == PNone then [] else [(e.0, Str(e.1))]) + Finalize(d)
  {
    assert ([e] + d)[1..] == d;
  }

  lemma FinalizeKept(e: (string, PyVal), d: Dict<string, PyVal>)
    requires e.1 != PNone
    ensures Finalize([e] + d) == [(e.0, Str(e.1))] + Finalize(d)
  {
    FinalizeCons(e, d);
  }

  /** The comprehension on the storage entries once the map and hints are None. */
  lemma FinalizeSeven(k0: string, k1: string, k2: string, k3: string, k4: string, k5: string, k6: string,
                      t: string, pt: string, s: string, n: nat, us: PyVal, f: Dict<string, PyVal>)
    ensures Finalize(Seven(k0, k1, k2, k3, k4, k5, k6, PStr(t), PStr(pt), PStr(s), PInt(n), PNone, PNone, us) + f)
            == [(k0, t), (k1, pt), (k2, s), (k3, NatToString(n))] + Finalize([(k6, us)] + f)
  {
    var e0, e1, e2, e3 := (k0, PStr(t)), (k1, PStr(pt)), (k2, PStr(s)), (k3, PInt(n));
    var tail := [(k6, us)] + f;
    var x5 := [(k5, PNone)] + tail;
    var x4 := [(k4, PNone)] + x5;
    ConsSeven(e0, e1, e2, e3, (k4, PNone), (k5, PNone), (k6, us), f);
    FinalizeConcat([e0, e1, e2, e3], x4);
    FinalizeCons((k4, PNone), x5);
    FinalizeCons((k5, PNone), tail);
    FinalizeFour(k0, k1, k2, k3, t, pt, s, n);
  }

  lemma FinalizeFour(k0: string, k1: string, k2: string, k3: string, t: string, pt: string, s: string, n: nat)
    ensures Finalize([(k0, PStr(t)), (k1, PStr(pt)), (k2, PStr(s)), (k3, PInt(n))])
            == [(k0, t), (k1, pt), (k2, s), (k3, NatToString(n))]
  {
    var e0, e1, e2, e3 := (k0, PStr(t)), (k1, PStr(pt)), (k2, PStr(s)), (k3, PInt(n));
    ConsFour(e0, e1, e2, e3, []);
    assert [e0, e1, e2, e3] + [] == [e0, e1, e2, e3];
    FinalizeKept(e3, []);
    FinalizeKept(e2, [e3] + []);
    FinalizeKept(e1, [e2] + ([e3] + []));
    FinalizeKept(e0, [e1] + ([e2] + ([e3] + [])));
    assert Str(PInt(n)) == NatToString(n);
    var r := [(k0, t), (k1, pt), (k2, s), (k3, NatToString(n))];
    ConsFour(r[0], r[1], r[2], r[3], []);
    assert r + [] == r;
  }

  /** `to_json()` on a well-formed puzzle whose de-duplicated hint list is `hv`. */
  lemma StorageSteps(p: Puzzle, hv: PyVal)
    requires WellFormed(p)
    ensures Finalize(Union(Union(StorageHead(p), Attributes(p, hv)),
                           [("hints", PNone), ("encryption_map", PNone)]))
            == StorageJson(p)
  {
    var t, pt, s, n := PStr(Name(p.kind)), PStr(p.base.puzzleType), PStr(p.base.stringToEncrypt),
                       PInt(|p.base.stringToEncrypt|);
    var em := PDict(MapEntries(p.base.encryptionMap));
    FieldNamesFresh(p.kind);
    HeadUnion("type", "puzzle_type", "string_to_encrypt", "length", "encryption_map", "hints", "used",
              t, pt, s, n, em, hv, p.base.used, p.fields);
    NonesUnion("type", "puzzle_type", "string_to_encrypt", "length", "encryption_map", "hints", "used",
               t, pt, s, n, em, hv, p.base.used, PNone, p.fields);
    FinalizeSeven("type", "puzzle_type", "string_to_encrypt", "length", "encryption_map", "hints", "used",
                  Name(p.kind), p.base.puzzleType, p.base.stringToEncrypt, |p.base.stringToEncrypt|,
                  p.base.used, p.fields);
  }

  lemma FiveKeys<K, V>(k0: K, k1: K, k2: K, k3: K, k4: K, v0: V, v1: V, v2: V, v3: V, v4: V,
                       f: Dict<K, V>)
    requires Distinct([k0, k1, k2, k3, k4] + Keys(f))
    ensures DistinctKeys([(k0, v0), (k1, v1), (k2, v2), (k3, v3), (k4, v4)] + f)
  {
    var five := [(k0, v0), (k1, v1), (k2, v2), (k3, v3), (k4, v4)];
    assert Keys(five) == [k0, k1, k2, k3, k4];
    KeysConcat(five, f);
  }

  /** `for key in ["used"]: del data[key]` on the attributes' shape. */
  lemma DropLast<K, V>(k0: K, k1: K, k2: K, k3: K, k4: K, v0: V, v1: V, v2: V, v3: V, v4: V,
                       f: Dict<K, V>)
    requires Distinct([k0, k1, k2, k3, k4] + Keys(f))
    ensures Remove([(k0, v0), (k1, v1)] + ([(k2, v2), (k3, v3), (k4, v4)] + f), k4)
            == [(k0, v0), (k1, v1), (k2, v2), (k3, v3)] + f
  {
    var two, three := [(k0, v0), (k1, v1)], [(k2, v2), (k3, v3), (k4, v4)];
    var five := [(k0, v0), (k1, v1), (k2, v2), (k3, v3), (k4, v4)];
    AppendAssoc(two, three, f);
    assert two + three == five;
    FiveKeys(k0, k1, k2, k3, k4, v0, v1, v2, v3, v4, f);
    RemoveAtConcat(five, f, 4);
    assert five[..4] + five[5..] == [(k0, v0), (k1, v1), (k2, v2), (k3, v3)];
  }

  lemma PickedSnoc(data: Dict<string, PyVal>, ks: seq<string>, k: string)
    ensures Picked(data, ks + [k]) == Picked(data, ks) + [(k, ValueAt(data, k))]
  {
    assert (ks + [k])[..|ks|] == ks;
  }

  /** Four keys picked one after another. */
  lemma PickedFour(data: Dict<string, PyVal>, a: string, b: string, c: string, d: string)
    ensures Picked(data, [a, b, c, d])
            == [(a, ValueAt(data, a)), (b, ValueAt(data, b)), (c, ValueAt(data, c)), (d, ValueAt(data, d))]
  {
    assert [a] == [] + [a];
    assert [a, b] == [a] + [b];
    assert [a, b, c] == [a, b] + [c];
    assert [a, b, c, d] == [a, b, c] + [d];
    PickedSnoc(data, [], a);
    PickedSnoc(data, [a], b);
    PickedSnoc(data, [a, b], c);
    PickedSnoc(data, [a, b, c], d);
  }

  /** Looking up a key of the front four entries of `four + f`. */
  lemma ValueAtFront(four: Dict<string, PyVal>, f: Dict<string, PyVal>, i: nat)
    requires |four| == 4 && i < 4 && DistinctKeys(four)
    ensures ValueAt(four + f, four[i].0) == four[i].1
  {
    assert four[i].0 in Keys(four);
    GetConcat(four, f, four[i].0);
    GetAt(four, i);
  }

  /** The values the four pops of the frontend branch return. */
  lemma PickFour(k0: string, k1: string, k2: string, k3: string, v0: PyVal, v1: PyVal, v2: PyVal, v3: PyVal,
                 f: Dict<string, PyVal>)
    requires Distinct([k0, k1, k2, k3])
    ensures Picked([(k0, v0), (k1, v1), (k2, v2), (k3, v3)] + f, [k1, k0, k3, k2])
            == [(k1, v1), (k0, v0), (k3, v3), (k2, v2)]
  {
    var four := [(k0, v0), (k1, v1), (k2, v2), (k3, v3)];
    assert Keys(four) == [k0, k1, k2, k3];
    ValueAtFront(four, f, 0);
    ValueAtFront(four, f, 1);
    ValueAtFront(four, f, 2);
    ValueAtFront(four, f, 3);
    PickedFour(four + f, k1, k0, k3, k2);
  }

  lemma RemoveAllSnoc(data: Dict<string, PyVal>, keys: seq<string>, k: string)
    ensures RemoveAll(data, keys + [k]) == Remove(RemoveAll(data, keys), k)
  {
    assert (keys + [k])[..|keys|] == keys;
  }

  /** Four keys deleted one after another. */
  lemma RemoveAllFour(data: Dict<string, PyVal>, a: string, b: string, c: string, d: string)
    ensures RemoveAll(data, [a, b, c, d]) == Remove(Remove(Remove(Remove(data, a), b), c), d)
  {
    assert [a] == [] + [a];
    assert [a, b] == [a] + [b];
    assert [a, b, c] == [a, b] + [c];
    assert [a, b, c, d] == [a, b, c] + [d];
    RemoveAllSnoc(data, [], a);
    RemoveAllSnoc(data, [a], b);
    RemoveAllSnoc(data, [a, b], c);
    RemoveAllSnoc(data, [a, b, c], d);
  }

  /** Deleting every key of `four` from `four + f` leaves `f`. */
  lemma RemoveFour(k0: string, k1: string, k2: string, k3: string, v0: PyVal, v1: PyVal, v2: PyVal, v3: PyVal,
                   f: Dict<string, PyVal>)
    requires Distinct([k0, k1, k2, k3] + Keys(f))
    ensures RemoveAll([(k0, v0), (k1, v1), (k2, v2), (k3, v3)] + f, [k1, k0, k3, k2]) == f
  {
    var ks := [k0, k1, k2, k3];
    var e0, e1, e2, e3 := (k0, v0), (k1, v1), (k2, v2), (k3, v3);
    DistinctParts(ks, Keys(f), 0);
    DistinctParts(ks, Keys(f), 1);
    DistinctParts(ks, Keys(f), 2);
    DistinctParts(ks, Keys(f), 3);
    var keys := [k1, k0, k3, k2];
    assert forall i :: 0 <= i < |keys| ==> keys[i] !in Keys(f);
    RemoveAllConcat([e0, e1, e2, e3], f, keys);
    assert ks == [k0, k1, k2, k3] + [] && Distinct(ks) by {
      assert ks == (ks + Keys(f))[..4];
      assert forall i, j :: 0 <= i < j < 4 ==> ks[i] == (ks + Keys(f))[i] && ks[j] == (ks + Keys(f))[j];
    }
    RemoveDisplays(k0, k1, k2, k3, v0, v1, v2, v3);
    RemoveAllFour([e0, e1, e2, e3], k1, k0, k3, k2);
  }

  lemma RemoveDisplays(k0: string, k1: string, k2: string, k3: string, v0: PyVal, v1: PyVal, v2: PyVal, v3: PyVal)
    requires Distinct([k0, k1, k2, k3])
    ensures Remove([(k0, v0), (k1, v1), (k2, v2), (k3, v3)], k1) == [(k0, v0), (k2, v2), (k3, v3)]
    ensures Remove([(k0, v0), (k2, v2), (k3, v3)], k0) == [(k2, v2), (k3, v3)]
    ensures Remove([(k2, v2), (k3, v3)], k3) == [(k2, v2)]
    ensures Remove([(k2, v2)], k2) == []
  {
    var ks := [k0, k1, k2, k3];
    assert ks[0] != ks[2] && ks[0] != ks[3] && ks[2] != ks[3];
    RemoveSecondOfFour(k0, k1, k2, k3, v0, v1, v2, v3);
    RemoveFirstOfThree(k0, k2, k3, v0, v2, v3);
    RemoveSecondOfTwo(k2, k3, v2, v3);
  }

  lemma RemoveSecondOfFour<K, V>(k0: K, k1: K, k2: K, k3: K, v0: V, v1: V, v2: V, v3: V)
    requires Distinct([k0, k1, k2, k3])
    ensures Remove([(k0, v0), (k1, v1), (k2, v2), (k3, v3)], k1) == [(k0, v0), (k2, v2), (k3, v3)]
  {
    var d := [(k0, v0), (k1, v1), (k2, v2), (k3, v3)];
    assert Keys(d) == [k0, k1, k2, k3];
    RemoveAt(d, 1);
    assert d[..1] + d[2..] == [(k0, v0), (k2, v2), (k3, v3)];
  }

  lemma RemoveFirstOfThree<K, V>(k0: K, k2: K, k3: K, v0: V, v2: V, v3: V)
    requires k0 != k2 && k0 != k3
    ensures Remove([(k0, v0), (k2, v2), (k3, v3)], k0) == [(k2, v2), (k3, v3)]
  {
    var d := [(k0, v0), (k2, v2), (k3, v3)];
    assert d == [d[0]] + [(k2, v2), (k3, v3)];
    assert Keys([(k2, v2), (k3, v3)]) == [k2, k3];
    RemoveFirst(d[0], [(k2, v2), (k3, v3)]);
  }

  lemma RemoveSecondOfTwo<K, V>(k2: K, k3: K, v2: V, v3: V)
    requires k2 != k3
    ensures Remove([(k2, v2), (k3, v3)], k3) == [(k2, v2)]
    ensures Remove([(k2, v2)], k2) == []
  {
    var d2, d1 := [(k2, v2), (k3, v3)], [(k3, v3)];
    assert d2[1..] == d1 && d1[1..] == [];
    assert Remove(d1, k3) == [];
    assert Remove(d2, k3) == [(k2, v2)] + [];
    assert [(k2, v2)][1..] == [];
  }

  /** The comprehension on the frontend entries, none of which is None. */
  lemma FinalizeFive(k0: string, k1: string, k2: string, k3: string, k4: string,
                     s0: string, s1: string, v2: PyVal, v3: PyVal, v4: PyVal)
    requires v2 != PNone && v3 != PNone && v4 != PNone
    ensures Finalize([(k0, PStr(s0)), (k1, PStr(s1)), (k2, v2), (k3, v3)] + [(k4, v4)])
            == [(k0, s0), (k1, s1), (k2, Str(v2)), (k3, Str(v3)), (k4, Str(v4))]
  {
    var e0, e1, e2, e3, e4 := (k0, PStr(s0)), (k1, PStr(s1)), (k2, v2), (k3, v3), (k4, v4);
    ConsSingles(e0, e1, e2, e3, e4);
    FinalizeKept(e4, []);
    assert [e4] + [] == [e4];
    FinalizeKept(e3, [e4]);
    FinalizeKept(e2, [e3] + [e4]);
    FinalizeKept(e1, [e2] + ([e3] + [e4]));
    FinalizeKept(e0, [e1] + ([e2] + ([e3] + [e4])));
    ConsSingles((k0, s0), (k1, s1), (k2, Str(v2)), (k3, Str(v3)), (k4, Str(v4)));
  }

  /** What the four pops of the frontend branch move into `res`. */
  function FrontendRes(p: Puzzle): Dict<string, PyVal> {
    [("puzzle_type", PStr(p.base.puzzleType)), ("string_to_encrypt", PStr(p.base.stringToEncrypt)),
     ("hints", HintList(p)), ("encryption_map", PDict(MapEntries(p.base.encryptionMap)))]
  }

  /** The deletion and the pops of the frontend branch. */
  lemma FrontendPops(p: Puzzle)
    requires WellFormed(p)
    ensures Picked(RemoveAll(Attributes(p, HintList(p)), ["used"]), FrontendKeys) == FrontendRes(p)
    ensures RemoveAll(RemoveAll(Attributes(p, HintList(p)), ["used"]), FrontendKeys) == p.fields
  {
    var se, pt := PStr(p.base.stringToEncrypt), PStr(p.base.puzzleType);
    var em, hv, f := PDict(MapEntries(p.base.encryptionMap)), HintList(p), p.fields;
    BaseKeysFresh(p.kind);
    DistinctWithoutFifth("string_to_encrypt", "puzzle_type", "encryption_map", "hints", "used", FieldNames(p.kind));
    DropLast("string_to_encrypt", "puzzle_type", "encryption_map", "hints", "used", se, pt, em, hv,
             p.base.used, f);
    assert RemoveAll(Attributes(p, hv), ["used"])
           == [("string_to_encrypt", se), ("puzzle_type", pt), ("encryption_map", em), ("hints", hv)] + f;
    PickFour("string_to_encrypt", "puzzle_type", "encryption_map", "hints", se, pt, em, hv, f);
    RemoveFour("string_to_encrypt", "puzzle_type", "encryption_map", "hints", se, pt, em, hv, f);
  }

  /** `res["other_info"] = ...` and the comprehension on the frontend entries. */
  lemma FrontendFinal(s0: string, s1: string, hv: PyVal, em: PyVal, oi: PyVal)
    requires hv != PNone && em != PNone && oi != PNone
    ensures Finalize(Put([("puzzle_type", PStr(s0)), ("string_to_encrypt", PStr(s1)), ("hints", hv),
                          ("encryption_map", em)], "other_info", oi))
            == [("puzzle_type", s0), ("string_to_encrypt", s1), ("hints", Str(hv)), ("encryption_map", Str(em)),
                ("other_info", Str(oi))]
  {
    var res := [("puzzle_type", PStr(s0)), ("string_to_encrypt", PStr(s1)), ("hints", hv), ("encryption_map", em)];
    assert Keys(res) == FrontendKeys;
    assert "other_info" !in FrontendKeys;
    FinalizeFive("puzzle_type", "string_to_encrypt", "hints", "encryption_map", "other_info", s0, s1, hv, em, oi);
  }

  /** `to_json(to_read_from_frontend=True)` on a well-formed puzzle. */
  lemma FrontendSteps(p: Puzzle)
    requires WellFormed(p)
    ensures var d1 := RemoveAll(Attributes(p, HintList(p)), ["used"]);
            var res := Picked(d1, FrontendKeys);
            Finalize(Put(res, "other_info", PDict(Union([], OtherInfo(RemoveAll(d1, FrontendKeys)))))) == FrontendJson(p)
  {
    FrontendPops(p);
    FrontendFinal(p.base.puzzleType, p.base.stringToEncrypt, HintList(p), PDict(MapEntries(p.base.encryptionMap)),
                  PDict(Union([], OtherInfo(p.fields))));
  }

  /** The keys the frontend branch moves into its result, in that order. */
  const FrontendKeys: seq<string> := ["puzzle_type", "string_to_encrypt", "hints", "encryption_map"]

  lemma FrontendKeysDistinct()
    ensures Distinct(FrontendKeys)
  {
  }

  /** The keys the frontend branch deletes and pops are attributes at that point. */
  lemma FrontendKeysPresent(p: Puzzle, hv: PyVal)
    ensures "used" in Keys(Attributes(p, hv))
    ensures forall i :: 0 <= i < |FrontendKeys| ==> FrontendKeys[i] in Keys(RemoveAll(Attributes(p, hv), ["used"]))
  {
    var a := Attributes(p, hv);
    var ks := Keys(a);
    assert ks[0] == "string_to_encrypt" && ks[1] == "puzzle_type" && ks[2] == "encryption_map";
    assert ks[3] == "hints" && ks[4] == "used";
    forall i | 0 <= i < |FrontendKeys| ensures FrontendKeys[i] in Keys(RemoveAll(a, ["used"])) {
      KeysRemoveAll(a, ["used"], FrontendKeys[i]);
    }
  }

  /**
   * `to_json(to_read_from_frontend)`: the hint list is de-duplicated by
   * letter, then either the storage record or the frontend view is built.
   */
  method ToJson(p: Puzzle, toReadFromFrontend: bool) returns (r: Dict<string, string>)
    requires WellFormed(p)
    ensures r == if toReadFromFrontend then FrontendJson(p) else StorageJson(p)
  {
    var hints := DedupHints(p.base.hints);
    var data := Attributes(p, PList(hints));
    var res: Dict<string, PyVal>;
    if !toReadFromFrontend {
      res := Union(StorageHead(p), data);
      res := Union(res, [("hints", PNone), ("encryption_map", PNone)]);
      StorageSteps(p, PList(hints));
    } else {
      FrontendKeysPresent(p, PList(hints));
      FrontendKeysDistinct();
      data := DeleteAll(data, ["used"]);
      res, data := PopAll(data, FrontendKeys);
      res := Put(res, "other_info", PDict(Union([], OtherInfo(data))));
      FrontendSteps(p);
    }
    r := Finalize(res);
  }
}
