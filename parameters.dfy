/**
 * `get_puzzle_parameters`: the parameters of a registered class's
 * constructor that the new-puzzle form asks the user for, in the order the
 * constructor's signature lists them.
 */
module Parameters {
  import opened Wrappers
  import opened Seqs
  import opened PyValues
  import opened Dicts
  import opened Puzzles
  import opened Registry

  /** An `inspect.Parameter`: its name, and its annotation and default as source text where it has them. */
  datatype Param = Param(name: string, annotation: Option<string>, default: Option<string>)

  /** A parameter with an annotation and no default. */
  function Required(name: string, annotation: string): Param {
    Param(name, Some(annotation), None)
  }

  const SelfParam: Param := Param("self", None, None)

  /** `used: bool = False`, the last parameter of every constructor. */
  const UsedParam: Param := Param("used", Some("bool"), Some("False"))

  /** The parameters of `cls.__init__` after `self`, in the order they are declared. */
  function InitParams(k: Kind): seq<Param> {
    match k
    case ListPuzzle => [Required("setup", "str"), Required("elements", "list[str]"), UsedParam]
    case CharacterQuote =>
      [Required("quote", "str"), Required("source_type", "str"), Required("character_name", "str"),
       Required("source", "str"), Required("date", "str"), UsedParam]
    case FamousDocumentQuote =>
      [Required("quote", "str"), Required("source", "str"), Required("author", "str"), Required("date", "str"),
       UsedParam]
    case DirectQuote =>
      [Required("quote", "str"), Required("author", "str"), Param("date", Some("str | None"), Some("None")),
       UsedParam]
    case GeneralPhrase => [Required("phrase", "str"), UsedParam]
    case SongLyrics =>
      [Required("lyrics", "str"), Required("artist", "str"), Required("title", "str"), Required("date", "str"),
       UsedParam]
    case Riddle => [Required("question", "str"), Required("answer", "str"), UsedParam]
    case RiddleSolvedInReverse => [Required("question", "str"), Required("answer", "str"), UsedParam]
  }

  /** The dict of parameters keyed by name, in order. */
  function ParamDict(ps: seq<Param>): (d: Dict<string, Param>)
    ensures |d| == |ps| && forall i :: 0 <= i < |ps| ==> d[i] == (ps[i].name, ps[i])
  {
    seq(|ps|, i requires 0 <= i < |ps| => (ps[i].name, ps[i]))
  }

  /** `dict(inspect.signature(cls.__init__).parameters)`. */
  function Signature(k: Kind): Dict<string, Param> {
    ParamDict([SelfParam] + InitParams(k))
  }

  /** The names the form never asks for. */
  const Excluded: set<string> := {"self", "string_to_encrypt", "puzzle_type", "hints", "encryptionMap"}

  /** `d` without the entries whose keys are in `names`, the rest in their order. */
  function Without<V>(d: Dict<string, V>, names: set<string>): Dict<string, V> {
    if d == [] then [] else (if d[0].0 in names then [] else [d[0]]) + Without(d[1..], names)
  }

  lemma {:induction false} WithoutKeys<V>(d: Dict<string, V>, names: set<string>, x: string)
    ensures x in Keys(Without(d, names)) <==> x in Keys(d) && x !in names
  {
    if d != [] {
      WithoutKeys(d[1..], names, x);
      var head: Dict<string, V> := if d[0].0 in names then [] else [d[0]];
      KeysConcat(head, Without(d[1..], names));
      assert Keys(d) == [d[0].0] + Keys(d[1..]);
    }
  }

  lemma {:induction false} WithoutFresh<V>(d: Dict<string, V>, names: set<string>, a: string)
    requires a !in Keys(d)
    ensures Without(d, names + {a}) == Without(d, names)
  {
    if d != [] {
      assert Keys(d) == [d[0].0] + Keys(d[1..]);
      WithoutFresh(d[1..], names, a);
    }
  }

  lemma {:induction false} RemoveWithout<V>(d: Dict<string, V>, names: set<string>, a: string)
    ensures Remove(Without(d, names), a) == Without(d, names + {a})
  {
    if d != [] {
      RemoveWithout(d[1..], names, a);
      var w := Without(d[1..], names);
      if d[0].0 in names {
        assert Without(d, names) == w;
        assert Without(d, names + {a}) == Without(d[1..], names + {a});
      } else {
        assert Without(d, names) == [d[0]] + w;
        assert ([d[0]] + w)[0] == d[0] && ([d[0]] + w)[1..] == w;
        if d[0].0 == a {
          assert Without(d, names + {a}) == Without(d[1..], names + {a});
        } else {
          assert Without(d, names + {a}) == [d[0]] + Without(d[1..], names + {a});
        }
      }
    }
  }

  /** One pass of the loop: deleting `a` where it is present removes it along with the names before it. */
  lemma DeleteStep<V>(d: Dict<string, V>, names: set<string>, a: string)
    ensures (if a in Keys(Without(d, names)) then Remove(Without(d, names), a) else Without(d, names))
            == Without(d, names + {a})
  {
    WithoutKeys(d, names, a);
    if a in Keys(Without(d, names)) {
      RemoveWithout(d, names, a);
    } else if a !in names {
      WithoutFresh(d, names, a);
    } else {
      assert names + {a} == names;
    }
  }

  lemma {:induction false} WithoutNothing<V>(d: Dict<string, V>, names: set<string>)
    requires forall i :: 0 <= i < |d| ==> d[i].0 !in names
    ensures Without(d, names) == d
  {
    if d != [] {
      WithoutNothing(d[1..], names);
      assert d == [d[0]] + d[1..];
    }
  }

  /** What `get_puzzle_parameters(puzzle_type)` returns. */
  function PuzzleParameters(puzzleType: string): Result<Dict<string, Param>, Error> {
    var k :- Need(PuzzleClasses(), puzzleType);
    Ok(Without(Signature(k), Excluded))
  }

  /**
   * The loop of `get_puzzle_parameters`: deletes each name of `order` that
   * `sig` has, taking the names in the order the set literal iterates.
   */
  method DeleteNames(sig: Dict<string, Param>, order: seq<string>) returns (sig': Dict<string, Param>)
    ensures sig' == Without(sig, Elements(order))
  {
    sig' := sig;
    WithoutNothing(sig, {});
    assert Elements(order[..0]) == {};
    for i := 0 to |order|
      invariant sig' == Without(sig, Elements(order[..i]))
    {
      var arg := order[i];
      DeleteStep(sig, Elements(order[..i]), arg);
      if arg in Keys(sig') {
        sig' := Remove(sig', arg);
      }
      PrefixSnoc(order, i);
      ElementsAppend(order[..i], arg);
    }
    assert order[..|order|] == order;
  }

  /**
   * `get_puzzle_parameters(puzzle_type)`: looks the class up and deletes the
   * excluded names from its constructor's signature. Whatever order the set
   * of excluded names iterates in, the result is the same.
   */
  method GetPuzzleParameters(puzzleType: string, order: seq<string>)
    returns (r: Result<Dict<string, Param>, Error>)
    requires Distinct(order) && Elements(order) == Excluded
    ensures r == PuzzleParameters(puzzleType)
  {
    var k :- Need(PuzzleClasses(), puzzleType);
    var sig := DeleteNames(Signature(k), order);
    r := Ok(sig);
  }

  /**
   * An unregistered name raises `KeyError`; for a registered class the result
   * keeps exactly the signature's parameters that are not excluded, so none
   * of the excluded names ever appears.
   */
  lemma ParametersKeys(puzzleType: string, x: string)
    ensures PuzzleParameters(puzzleType).Err? <==> puzzleType !in Keys(PuzzleClasses())
    ensures PuzzleParameters(puzzleType).Err? ==> PuzzleParameters(puzzleType).error == KeyError(puzzleType)
    ensures PuzzleParameters(puzzleType).Ok? ==>
              (x in Keys(PuzzleParameters(puzzleType).value)
               <==> x in Keys(Signature(Get(PuzzleClasses(), puzzleType).value)) && x !in Excluded)
  {
    if PuzzleParameters(puzzleType).Ok? {
      var k := Need(PuzzleClasses(), puzzleType).value;
      WithoutKeys(Signature(k), Excluded, x);
    }
  }

  /** No constructor parameter after `self` is excluded, and `used` comes last and only there. */
  lemma InitParamNames(k: Kind)
    ensures forall i :: 0 <= i < |InitParams(k)| ==> InitParams(k)[i].name !in Excluded
    ensures InitParams(k) != [] && InitParams(k)[|InitParams(k)| - 1] == UsedParam
    ensures forall i :: 0 <= i < |InitParams(k)| - 1 ==> InitParams(k)[i].name != "used"
  {
  }

  /** Dropping `self` and no other parameter leaves the rest of the signature as it was. */
  lemma WithoutSelf(ps: seq<Param>)
    requires forall i :: 0 <= i < |ps| ==> ps[i].name !in Excluded
    ensures Without(ParamDict([SelfParam] + ps), Excluded) == ParamDict(ps)
  {
    var rest := ParamDict(ps);
    assert ParamDict([SelfParam] + ps) == [("self", SelfParam)] + rest;
    assert ([("self", SelfParam)] + rest)[1..] == rest;
    WithoutNothing(rest, Excluded);
  }

  lemma {:induction false} GetLast<V>(a: Dict<string, V>, e: (string, V))
    requires e.0 !in Keys(a)
    ensures Get(a + [e], e.0) == Some(e.1)
  {
    if a != [] {
      assert (a + [e])[1..] == a[1..] + [e];
      assert Keys(a) == [a[0].0] + Keys(a[1..]);
      GetLast(a[1..], e);
    }
  }

  /** The last parameter `used` is found under its name. */
  lemma UsedFound(ps: seq<Param>)
    requires ps != [] && ps[|ps| - 1] == UsedParam
    requires forall i :: 0 <= i < |ps| - 1 ==> ps[i].name != "used"
    ensures Get(ParamDict(ps), "used") == Some(UsedParam)
  {
    var d := ParamDict(ps);
    var n := |d| - 1;
    assert d == d[..n] + [d[n]];
    GetLast(d[..n], d[n]);
  }

  /**
   * For each class the result is its constructor's parameters after `self`,
   * in declaration order: `self` is the only excluded name any of them has,
   * and `used` is kept.
   */
  lemma ParametersOfClass(k: Kind)
    ensures PuzzleParameters(Name(k)) == Ok(ParamDict(InitParams(k)))
    ensures Get(PuzzleParameters(Name(k)).value, "used") == Some(UsedParam)
  {
    RegistryContents();
    GetKeys(PuzzleClasses(), Name(k));
    InitParamNames(k);
    WithoutSelf(InitParams(k));
    UsedFound(InitParams(k));
  }
}
