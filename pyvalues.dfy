/**
 * The Python values that puzzle attributes and records hold, the two
 * exceptions the core can raise, and `str()`. The rendering is exact for
 * strings, booleans and integers; for lists and dicts it follows the shape of
 * Python's `repr` (brackets, braces, `', '` and `': '` separators, quoted
 * strings) without Python's escaping or its choice of quote character.
 */
module PyValues {
  import opened Text

  datatype PyVal =
    | PNone
    | PBool(b: bool)
    | PInt(i: int)
    | PStr(s: string)
    | PList(items: seq<PyVal>)
    | PDict(entries: seq<(string, PyVal)>)

  /** `KeyError(key)` from a missing dict key; the `ValueError` that `random.sample` raises. */
  datatype Error = KeyError(key: string) | SampleLargerThanPopulation

  /** `", ".join(parts)`. */
  function CommaJoin(parts: seq<string>): string {
    if parts == [] then ""
    else if |parts| == 1 then parts[0]
    else parts[0] + ", " + CommaJoin(parts[1..])
  }

  /** `str(v)`. */
  function Str(v: PyVal): string
    decreases v, 0
  {
    match v
    case PNone => "None"
    case PBool(b) => if b then "True" else "False"
    case PInt(i) => IntToString(i)
    case PStr(s) => s
    case PList(items) => "[" + CommaJoin(ItemReprs(items)) + "]"
    case PDict(es) => "{" + CommaJoin(EntryReprs(es)) + "}"
  }

  /** `repr` of each element of a list. */
  function ItemReprs(items: seq<PyVal>): (r: seq<string>)
    decreases items, 2
  {
    if items == [] then [] else [Repr(items[0])] + ItemReprs(items[1..])
  }

  /** `'key': repr(value)` for each entry of a dict. */
  function EntryReprs(es: seq<(string, PyVal)>): (r: seq<string>)
    decreases es, 2
  {
    if es == [] then []
    else
      var (key, value) := es[0];
      assert value < es[0];
      assert es[0] in es;
      ["'" + key + "': " + Repr(value)] + EntryReprs(es[1..])
  }

  /** `repr(v)` as `str` of a container uses it for the elements. */
  function Repr(v: PyVal): string
    decreases v, 1
  {
    if v.PStr? then "'" + v.s + "'" else Str(v)
  }
}
