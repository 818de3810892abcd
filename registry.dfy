/**
 * The name-keyed class registry: `get_all_subclasses` walks the subclass
 * relation with a worklist, `PUZZLE_CLASSES` maps the name of each class it
 * finds below `CryptographBase` to that class in ascending name order, and
 * `parse_puzzle` hands a record to the `from_json` of the class its `type`
 * names.
 */
module Registry {
  import opened Wrappers
  import opened Seqs
  import opened Text
  import opened PyValues
  import opened Dicts
  import opened Puzzles
  import opened PuzzleJson
  import opened PuzzleDecode

  /** `c.__subclasses__()`: the direct subclasses of `c` in a hierarchy `h`. */
  function Subclasses<C(!new)>(h: map<C, seq<C>>, c: C): seq<C> {
    if c in h then h[c] else []
  }

  /** Every class that is a direct subclass of some class of `h`. */
  ghost function Universe<C(!new)>(h: map<C, seq<C>>): set<C> {
    set x, y | x in h && y in h[x] :: y
  }

  /** `p` is a chain of one or more subclass steps. */
  ghost predicate IsChain<C(!new)>(h: map<C, seq<C>>, p: seq<C>) {
    |p| >= 2 && forall i :: 0 <= i < |p| - 1 ==> p[i + 1] in Subclasses(h, p[i])
  }

  /** `d` is reached from `c` through one or more subclass steps. */
  ghost predicate Descends<C(!new)>(h: map<C, seq<C>>, c: C, d: C) {
    exists p :: IsChain(h, p) && p[0] == c && p[|p| - 1] == d
  }

  lemma ChildDescends<C(!new)>(h: map<C, seq<C>>, c: C, d: C)
    requires d in Subclasses(h, c)
    ensures Descends(h, c, d)
  {
    var p := [c, d];
    assert IsChain(h, p);
  }

  lemma DescendsStep<C(!new)>(h: map<C, seq<C>>, c: C, m: C, d: C)
    requires Descends(h, c, m) && d in Subclasses(h, m)
    ensures Descends(h, c, d)
  {
    var p :| IsChain(h, p) && p[0] == c && p[|p| - 1] == m;
    var q := p + [d];
    forall i | 0 <= i < |q| - 1 ensures q[i + 1] in Subclasses(h, q[i]) {
      if i < |p| - 1 {
        assert q[i] == p[i] && q[i + 1] == p[i + 1];
      } else {
        assert q[i] == m && q[i + 1] == d;
      }
    }
    assert IsChain(h, q) && q[0] == c && q[|q| - 1] == d;
  }

  /** `s` holds the direct subclasses of `c` and of each of its own members. */
  ghost predicate Closed<C(!new)>(h: map<C, seq<C>>, c: C, s: set<C>) {
    forall x, y :: (x == c || x in s) && y in Subclasses(h, x) ==> y in s
  }

  lemma {:induction false} ChainInside<C(!new)>(h: map<C, seq<C>>, c: C, s: set<C>, p: seq<C>, k: nat)
    requires Closed(h, c, s) && IsChain(h, p) && p[0] == c && 1 <= k < |p|
    ensures p[k] in s
    decreases k
  {
    if k > 1 {
      ChainInside(h, c, s, p, k - 1);
    }
    assert p[k] in Subclasses(h, p[k - 1]);
  }

  /** A closed set holds every descendant. */
  lemma ClosedHoldsDescendants<C(!new)>(h: map<C, seq<C>>, c: C, s: set<C>, d: C)
    requires Closed(h, c, s) && Descends(h, c, d)
    ensures d in s
  {
    var p :| IsChain(h, p) && p[0] == c && p[|p| - 1] == d;
    ChainInside(h, c, s, p, |p| - 1);
  }

  lemma FewerLeft<C(!new)>(u: set<C>, a: set<C>, x: C)
    requires a <= u && x in u && x !in a
    ensures |u - (a + {x})| < |u - a|
  {
    assert u - a == (u - (a + {x})) + {x};
  }

  /**
   * One pass of the `for` loop of `get_all_subclasses`: each direct subclass
   * of `parent` not yet in `subclasses` is added to it and pushed on `work`.
   */
  method AddSubclasses<C(!new)>(h: map<C, seq<C>>, cls: C, parent: C, subclasses: set<C>, work: seq<C>)
    returns (subclasses': set<C>, work': seq<C>)
    requires parent == cls || Descends(h, cls, parent)
    requires subclasses <= Universe(h)
    requires forall d :: d in subclasses ==> Descends(h, cls, d)
    ensures subclasses <= subclasses' <= Universe(h)
    ensures forall d :: d in subclasses' ==> Descends(h, cls, d)
    ensures forall y :: y in Subclasses(h, parent) ==> y in subclasses'
    ensures forall w :: w in work' ==> w in work || w in subclasses'
    ensures forall x :: x in subclasses' && x !in subclasses ==> x in work'
    ensures forall w :: w in work ==> w in work'
    ensures subclasses' == subclasses ==> work' == work
    ensures subclasses' != subclasses ==> |Universe(h) - subclasses'| < |Universe(h) - subclasses|
  {
    subclasses', work' := subclasses, work;
    var children := Subclasses(h, parent);
    for i := 0 to |children|
      invariant subclasses <= subclasses' <= Universe(h)
      invariant forall j :: 0 <= j < i ==> children[j] in subclasses'
      invariant forall d :: d in subclasses' ==> Descends(h, cls, d)
      invariant forall w :: w in work' ==> w in work || w in subclasses'
      invariant forall x :: x in subclasses' && x !in subclasses ==> x in work'
      invariant forall w :: w in work ==> w in work'
      invariant subclasses' == subclasses ==> work' == work
      invariant subclasses' != subclasses ==> |Universe(h) - subclasses'| < |Universe(h) - subclasses|
    {
      var child := children[i];
      if child !in subclasses' {
        assert parent in h && child in h[parent];
        if parent == cls {
          ChildDescends(h, cls, child);
        } else {
          DescendsStep(h, cls, parent, child);
        }
        FewerLeft(Universe(h), subclasses', child);
        subclasses' := subclasses' + {child};
        work' := work' + [child];
      }
    }
  }

  /**
   * `get_all_subclasses(cls)`: pops a class off the end of the worklist and
   * adds each of its direct subclasses not yet found, pushing it in turn. The
   * result is exactly the set of classes below `cls`. Because a class is
   * pushed only when it is added, and the classes of `h` are finitely many,
   * the loop ends even when the hierarchy has a cycle.
   */
  method GetAllSubclasses<C(!new)>(h: map<C, seq<C>>, cls: C) returns (subclasses: set<C>)
    ensures forall d :: d in subclasses <==> Descends(h, cls, d)
    ensures !Descends(h, cls, cls) ==> cls !in subclasses
  {
    subclasses := {};
    var work := [cls];
    while work != []
      invariant subclasses <= Universe(h)
      invariant forall w :: w in work ==> w == cls || w in subclasses
      invariant forall d :: d in subclasses ==> Descends(h, cls, d)
      invariant forall x, y :: (x == cls || x in subclasses) && x !in work && y in Subclasses(h, x)
                               ==> y in subclasses
      decreases |Universe(h) - subclasses|, |work|
    {
      var parent := work[|work| - 1];
      work := work[..|work| - 1];
      subclasses, work := AddSubclasses(h, cls, parent, subclasses, work);
    }
    assert Closed(h, cls, subclasses);
    forall d | Descends(h, cls, d) ensures d in subclasses {
      ClosedHoldsDescendants(h, cls, subclasses, d);
    }
  }

  /**
   * The classes of the two puzzle modules: the abstract base of the eight
   * puzzle types with its subclasses, and the older base class of the quote
   * module with its own eight, which derive from nothing of the first.
   */
  datatype PyClass = CryptographBase | Subclass(kind: Kind) | LegacyBase | LegacySubclass(legacyKind: Kind)

  /** The eight kinds in the order their classes are defined. */
  const AllKinds: seq<Kind> := [ListPuzzle, CharacterQuote, FamousDocumentQuote, DirectQuote,
                                GeneralPhrase, SongLyrics, Riddle, RiddleSolvedInReverse]

  lemma AllKindsListed(k: Kind)
    ensures k in AllKinds
  {
  }

  /** The subclass relation the two modules define. */
  const Hierarchy: map<PyClass, seq<PyClass>> :=
    map[CryptographBase := PuzzleClassList(),
        LegacyBase := seq(8, i requires 0 <= i < 8 => LegacySubclass(AllKinds[i]))]

  /**
   * Below `CryptographBase` lie exactly the eight puzzle classes: not the base
   * itself, and none of the quote module's classes.
   */
  lemma PuzzleSubclasses(d: PyClass)
    ensures Descends(Hierarchy, CryptographBase, d) <==> d.Subclass?
  {
    if d.Subclass? {
      AllKindsListed(d.kind);
      var i :| 0 <= i < 8 && AllKinds[i] == d.kind;
      assert Subclasses(Hierarchy, CryptographBase)[i] == d;
      ChildDescends(Hierarchy, CryptographBase, d);
    }
    if Descends(Hierarchy, CryptographBase, d) {
      var below := Elements(Subclasses(Hierarchy, CryptographBase));
      assert Closed(Hierarchy, CryptographBase, below);
      ClosedHoldsDescendants(Hierarchy, CryptographBase, below, d);
    }
  }

  /** No two classes share a name. */
  lemma NameInjective(a: Kind, b: Kind)
    ensures Name(a) == Name(b) ==> a == b
  {
  }

  /** The pair `(cls.__name__, cls)` the registry is built from. */
  function Entry(c: PyClass): (string, Kind)
    requires c.Subclass?
  {
    (Name(c.kind), c.kind)
  }

  function Entries(classes: seq<PyClass>): (r: seq<(string, Kind)>)
    requires forall i :: 0 <= i < |classes| ==> classes[i].Subclass?
    ensures |r| == |classes| && forall i :: 0 <= i < |r| ==> r[i] == Entry(classes[i])
  {
    seq(|classes|, i requires 0 <= i < |classes| && classes[i].Subclass? => Entry(classes[i]))
  }

  /** Names strictly ascending in Python's string order. */
  predicate Ascending(s: seq<(string, Kind)>) {
    forall i, j :: 0 <= i < j < |s| ==> LexLess(s[i].0, s[j].0)
  }

  /** Places `e` before the first entry whose name comes after its own. */
  function Insert(e: (string, Kind), s: seq<(string, Kind)>): seq<(string, Kind)> {
    if s == [] || LexLess(e.0, s[0].0) then [e] + s else [s[0]] + Insert(e, s[1..])
  }

  /** `sorted(...)` on pairs whose names differ: ascending by name. */
  function SortByName(s: seq<(string, Kind)>): seq<(string, Kind)> {
    if s == [] then [] else Insert(s[0], SortByName(s[1..]))
  }

  lemma {:induction false} InsertPermutes(e: (string, Kind), s: seq<(string, Kind)>)
    ensures multiset(Insert(e, s)) == multiset{e} + multiset(s)
  {
    if s != [] && !LexLess(e.0, s[0].0) {
      InsertPermutes(e, s[1..]);
      assert s == [s[0]] + s[1..];
    }
  }

  lemma {:induction false} SortPermutes(s: seq<(string, Kind)>)
    ensures multiset(SortByName(s)) == multiset(s)
  {
    if s != [] {
      SortPermutes(s[1..]);
      InsertPermutes(s[0], SortByName(s[1..]));
      assert s == [s[0]] + s[1..];
    }
  }

  /** Inserting keeps every name after a bound that `e` and all of `s` are after. */
  lemma InsertBounded(e: (string, Kind), s: seq<(string, Kind)>, x: string)
    requires LexLess(x, e.0) && forall i :: 0 <= i < |s| ==> LexLess(x, s[i].0)
    ensures forall i :: 0 <= i < |Insert(e, s)| ==> LexLess(x, Insert(e, s)[i].0)
  {
    var t := Insert(e, s);
    InsertPermutes(e, s);
    forall k | 0 <= k < |t| ensures LexLess(x, t[k].0) {
      assert t[k] in multiset(t);
      if t[k] != e {
        assert t[k] in multiset(s);
        var m :| 0 <= m < |s| && s[m] == t[k];
      }
    }
  }

  lemma {:induction false} InsertAscending(e: (string, Kind), s: seq<(string, Kind)>)
    requires Ascending(s) && forall i :: 0 <= i < |s| ==> s[i].0 != e.0
    ensures Ascending(Insert(e, s))
  {
    var r := Insert(e, s);
    if s == [] || LexLess(e.0, s[0].0) {
      forall i, j | 0 <= i < j < |r| ensures LexLess(r[i].0, r[j].0) {
        if i == 0 && j > 1 {
          LexTransitive(e.0, s[0].0, s[j - 1].0);
        }
      }
    } else {
      var t := Insert(e, s[1..]);
      InsertAscending(e, s[1..]);
      LexTotal(e.0, s[0].0);
      InsertBounded(e, s[1..], s[0].0);
      assert r == [s[0]] + t;
      forall i, j | 0 <= i < j < |r| ensures LexLess(r[i].0, r[j].0) {
        if i == 0 {
          assert r[j] == t[j - 1];
        } else {
          assert r[i] == t[i - 1] && r[j] == t[j - 1];
        }
      }
    }
  }

  lemma {:induction false} SortAscending(s: seq<(string, Kind)>)
    requires forall i, j :: 0 <= i < j < |s| ==> s[i].0 != s[j].0
    ensures Ascending(SortByName(s))
  {
    if s != [] {
      SortAscending(s[1..]);
      var t := SortByName(s[1..]);
      SortPermutes(s[1..]);
      forall k | 0 <= k < |t| ensures t[k].0 != s[0].0 {
        assert t[k] in multiset(s[1..]);
        var m :| 0 <= m < |s[1..]| && s[1..][m] == t[k];
        assert s[m + 1] == t[k];
      }
      InsertAscending(s[0], t);
    }
  }

  /** Two ascending sequences of the same entries are the same sequence. */
  lemma {:induction false} AscendingUnique(a: seq<(string, Kind)>, b: seq<(string, Kind)>)
    requires Ascending(a) && Ascending(b) && Elements(a) == Elements(b)
    ensures a == b
  {
    assert a != [] ==> a[0] in Elements(a);
    assert b != [] ==> b[0] in Elements(b);
    if a != [] && b != [] {
      assert a[0] in Elements(b) && b[0] in Elements(a);
      if a[0] != b[0] {
        var i :| 0 <= i < |a| && a[i] == b[0];
        var j :| 0 <= j < |b| && b[j] == a[0];
        assert LexLess(a[0].0, b[0].0) && LexLess(b[0].0, a[0].0);
        LexTransitive(a[0].0, b[0].0, a[0].0);
        LexIrreflexive(a[0].0);
      }
      forall x ensures x in Elements(a[1..]) <==> x in Elements(b[1..]) {
        if x in Elements(a[1..]) {
          var i :| 0 <= i < |a[1..]| && a[1..][i] == x;
          assert x in Elements(a) && x == a[i + 1];
          LexIrreflexive(x.0);
          var j :| 0 <= j < |b| && b[j] == x;
          assert j != 0 && b[1..][j - 1] == x;
        }
        if x in Elements(b[1..]) {
          var j :| 0 <= j < |b[1..]| && b[1..][j] == x;
          assert x in Elements(b) && x == b[j + 1];
          LexIrreflexive(x.0);
          var i :| 0 <= i < |a| && a[i] == x;
          assert i != 0 && a[1..][i - 1] == x;
        }
      }
      AscendingUnique(a[1..], b[1..]);
      assert a == [a[0]] + a[1..] && b == [b[0]] + b[1..];
    }
  }

  /** Sorting gives the same result for any two orders of the same entries. */
  lemma SortOrderFree(a: seq<(string, Kind)>, b: seq<(string, Kind)>)
    requires forall i, j :: 0 <= i < j < |a| ==> a[i].0 != a[j].0
    requires forall i, j :: 0 <= i < j < |b| ==> b[i].0 != b[j].0
    requires Elements(a) == Elements(b)
    ensures SortByName(a) == SortByName(b)
  {
    SortAscending(a);
    SortAscending(b);
    SortPermutes(a);
    SortPermutes(b);
    var sa, sb := SortByName(a), SortByName(b);
    forall e ensures e in Elements(sa) <==> e in Elements(sb) {
      assert e in Elements(sa) <==> e in multiset(sa);
      assert e in Elements(sb) <==> e in multiset(sb);
      assert e in Elements(a) <==> e in multiset(a);
      assert e in Elements(b) <==> e in multiset(b);
    }
    AscendingUnique(sa, sb);
  }

  /** Distinct puzzle classes have distinct names. */
  lemma EntryNamesDistinct(classes: seq<PyClass>)
    requires Distinct(classes) && forall i :: 0 <= i < |classes| ==> classes[i].Subclass?
    ensures forall i, j :: 0 <= i < j < |Entries(classes)| ==> Entries(classes)[i].0 != Entries(classes)[j].0
  {
    forall i, j | 0 <= i < j < |classes| ensures Entries(classes)[i].0 != Entries(classes)[j].0 {
      NameInjective(classes[i].kind, classes[j].kind);
    }
  }

  lemma EntriesElements(xs: seq<PyClass>, ys: seq<PyClass>)
    requires forall i :: 0 <= i < |xs| ==> xs[i].Subclass?
    requires forall i :: 0 <= i < |ys| ==> ys[i].Subclass?
    requires Elements(xs) == Elements(ys)
    ensures Elements(Entries(xs)) == Elements(Entries(ys))
  {
    forall e | e in Elements(Entries(xs)) ensures e in Elements(Entries(ys)) {
      var i :| 0 <= i < |xs| && Entries(xs)[i] == e;
      assert xs[i] in Elements(ys);
      var j :| 0 <= j < |ys| && ys[j] == xs[i];
      assert Entries(ys)[j] == e;
    }
    forall e | e in Elements(Entries(ys)) ensures e in Elements(Entries(xs)) {
      var j :| 0 <= j < |ys| && Entries(ys)[j] == e;
      assert ys[j] in Elements(xs);
      var i :| 0 <= i < |xs| && xs[i] == ys[j];
      assert Entries(xs)[i] == e;
    }
  }

  /** The eight puzzle classes in the order they are defined. */
  function PuzzleClassList(): (r: seq<PyClass>)
    ensures |r| == 8 && Distinct(r)
    ensures forall i :: 0 <= i < 8 ==> r[i] == Subclass(AllKinds[i])
  {
    seq(8, i requires 0 <= i < 8 => Subclass(AllKinds[i]))
  }

  lemma PuzzleClassListed(c: PyClass)
    ensures c in PuzzleClassList() <==> c.Subclass?
  {
    if c.Subclass? {
      AllKindsListed(c.kind);
      var i :| 0 <= i < 8 && AllKinds[i] == c.kind;
      assert PuzzleClassList()[i] == c;
    }
  }

  /** `PUZZLE_CLASSES`: the entries of the eight puzzle classes, sorted by name. */
  function PuzzleClasses(): Dict<string, Kind> {
    SortByName(Entries(PuzzleClassList()))
  }

  /** An ascending dict has distinct keys. */
  lemma AscendingDistinct(s: seq<(string, Kind)>)
    requires Ascending(s)
    ensures DistinctKeys(s)
  {
    forall i, j | 0 <= i < j < |s| ensures Keys(s)[i] != Keys(s)[j] {
      if s[i].0 == s[j].0 {
        LexIrreflexive(s[i].0);
      }
    }
  }

  /**
   * Building the registry: `dict(sorted(...))` over the subclasses that
   * `get_all_subclasses(CryptographBase)` finds, which the set hands over in
   * the order `order`. Whatever that order, the registry is the same.
   */
  method LoadPuzzleClasses(order: seq<PyClass>) returns (registry: Dict<string, Kind>)
    requires Distinct(order) && forall c :: c in order <==> c.Subclass?
    ensures registry == PuzzleClasses()
  {
    var classes := GetAllSubclasses(Hierarchy, CryptographBase);
    OrderEnumerates(classes, order);
    var sorted := SortByName(Entries(order));
    RegistryOfOrder(order);
    registry := Union([], sorted);
  }

  /** `order` lists exactly the classes the walk finds. */
  lemma OrderEnumerates(classes: set<PyClass>, order: seq<PyClass>)
    requires forall d :: d in classes <==> Descends(Hierarchy, CryptographBase, d)
    requires forall c :: c in order <==> c.Subclass?
    ensures Elements(order) == classes
  {
    forall c ensures c in classes <==> c in Elements(order) {
      PuzzleSubclasses(c);
    }
  }

  /** The dict of the sorted entries, taken in any order of the eight classes, is the registry. */
  lemma RegistryOfOrder(order: seq<PyClass>)
    requires Distinct(order) && forall c :: c in order <==> c.Subclass?
    ensures Union([], SortByName(Entries(order))) == PuzzleClasses()
  {
    var entries := Entries(order);
    var sorted := SortByName(entries);
    EntryNamesDistinct(order);
    SortAscending(entries);
    AscendingDistinct(sorted);
    UnionOfFreshKeys([], sorted);
    EntryNamesDistinct(PuzzleClassList());
    forall c ensures c in order <==> c in PuzzleClassList() {
      PuzzleClassListed(c);
    }
    EntriesElements(order, PuzzleClassList());
    SortOrderFree(entries, Entries(PuzzleClassList()));
  }

  /** What sorting the entries of distinct puzzle classes gives. */
  lemma {:induction false} SortedEntries(classes: seq<PyClass>)
    requires Distinct(classes) && forall i :: 0 <= i < |classes| ==> classes[i].Subclass?
    ensures Ascending(SortByName(Entries(classes))) && DistinctKeys(SortByName(Entries(classes)))
    ensures |SortByName(Entries(classes))| == |classes|
    ensures forall k :: Subclass(k) in classes ==> Get(SortByName(Entries(classes)), Name(k)) == Some(k)
    ensures forall i :: 0 <= i < |SortByName(Entries(classes))| ==>
              SortByName(Entries(classes))[i].0 == Name(SortByName(Entries(classes))[i].1)
  {
    var es := Entries(classes);
    var r := SortByName(es);
    EntryNamesDistinct(classes);
    SortAscending(es);
    AscendingDistinct(r);
    SortPermutes(es);
    assert |r| == |multiset(r)| == |multiset(es)| == |classes|;
    forall k | Subclass(k) in classes ensures Get(r, Name(k)) == Some(k) {
      var j :| 0 <= j < |classes| && classes[j] == Subclass(k);
      assert es[j] == (Name(k), k) && es[j] in multiset(r);
      var i :| 0 <= i < |r| && r[i] == es[j];
      GetAt(r, i);
    }
    forall i | 0 <= i < |r| ensures r[i].0 == Name(r[i].1) {
      assert r[i] in multiset(es);
      var j :| 0 <= j < |es| && es[j] == r[i];
    }
  }

  /**
   * The registry lists its names in ascending order, each class's name maps
   * to that class, and every entry is a class under its own name.
   */
  lemma RegistryContents()
    ensures Ascending(PuzzleClasses()) && DistinctKeys(PuzzleClasses()) && |PuzzleClasses()| == 8
    ensures forall k :: Get(PuzzleClasses(), Name(k)) == Some(k)
    ensures forall i :: 0 <= i < |PuzzleClasses()| ==> PuzzleClasses()[i].0 == Name(PuzzleClasses()[i].1)
  {
    SortedEntries(PuzzleClassList());
    forall k ensures Subclass(k) in PuzzleClassList() {
      PuzzleClassListed(Subclass(k));
    }
  }

  /** `parse_puzzle(data)`: `PUZZLE_CLASSES[data["type"]].from_json(data)`. */
  function ParsePuzzle(data: Dict<string, string>): Result<Ctor, Error> {
    var t :- Need(data, "type");
    var k :- Need(PuzzleClasses(), t);
    FromJson(k, data)
  }

  /**
   * A record without `type` fails with `KeyError('type')`, one whose `type`
   * names no class fails with `KeyError` of that name, and one that names a
   * class is read by that class's `from_json`.
   */
  lemma ParseOutcome(data: Dict<string, string>)
    ensures "type" !in Keys(data) ==> ParsePuzzle(data) == Err(KeyError("type"))
    ensures forall t :: Get(data, "type") == Some(t) && t !in Keys(PuzzleClasses())
                        ==> ParsePuzzle(data) == Err(KeyError(t))
    ensures forall k :: Get(data, "type") == Some(Name(k)) ==> ParsePuzzle(data) == FromJson(k, data)
  {
    GetKeys(data, "type");
    forall k | Get(data, "type") == Some(Name(k)) ensures ParsePuzzle(data) == FromJson(k, data) {
      RegistryContents();
      GetKeys(PuzzleClasses(), Name(k));
    }
  }

  /** A storage record parses as the class named in it would read it back. */
  lemma ParseStorage(p: Puzzle, c: Ctor)
    requires MadeBy(p, c)
    ensures ParsePuzzle(StorageJson(p)) == Decoded(c)
  {
    MadeByWellFormed(p, c);
    StorageKeys(p);
    ParseOutcome(StorageJson(p));
    DecodeStorage(p, c);
  }

  /** A frontend record has no `type`, so `parse_puzzle` rejects it. */
  lemma ParseFrontend(p: Puzzle)
    ensures ParsePuzzle(FrontendJson(p)) == Err(KeyError("type"))
  {
    FrontendUnreadable(p, ListPuzzle);
    ParseOutcome(FrontendJson(p));
  }
}
