/**
 * The string operations of Python's `str` that the puzzle code relies on,
 * restricted to what the model needs: ASCII case folding, the letter filter
 * against the source's 26-letter constant, `split()`, `" ".join`,
 * `split(" ")[0]`, `replace("_", " ")`, `title()`, decimal rendering of a
 * natural number, and the code-point order `sorted` uses on names.
 */
module Text {
  import opened Seqs

  /** The constant the source filters against: the 26 letters in keyboard order. */
  const Alphabet: string := "qwertyuiopasdfghjklzxcvbnm"

  /** `str.lower()` of one character, for ASCII. */
  function Lower(c: char): char {
    if 'A' <= c <= 'Z' then (c as int + 32) as char else c
  }

  function LowerString(s: string): (r: string)
    ensures |r| == |s|
    ensures forall i :: 0 <= i < |s| ==> r[i] == Lower(s[i])
  {
    if s == [] then [] else [Lower(s[0])] + LowerString(s[1..])
  }

  lemma AlphabetIsAToZ(c: char)
    ensures c in Alphabet <==> 'a' <= c <= 'z'
  {
    if 'a' <= c <= 'z' {
      LetterInAlphabet(c);
    } else {
      AlphabetInRange();
    }
  }

  lemma AlphabetInRange()
    ensures forall i :: 0 <= i < |Alphabet| ==> 'a' <= Alphabet[i] <= 'z'
  {
  }

  lemma LetterInAlphabet(c: char)
    requires 'a' <= c <= 'z'
    ensures c in Alphabet
  {
    var n := c as int - 'a' as int;
    // position in the keyboard-ordered constant of the n-th letter of a..z
    var at := [10, 23, 21, 12, 2, 13, 14, 15, 7, 16, 17, 18, 25, 24, 8, 9, 0, 3, 11, 4, 6, 22, 1, 20, 5, 19];
    assert Alphabet[at[n]] == c;
  }

  lemma AlphabetDistinct()
    ensures Distinct(Alphabet) && |Elements(Alphabet)| == 26
  {
    forall i, j | 0 <= i < j < |Alphabet| ensures Alphabet[i] != Alphabet[j] {
      AlphabetIsAToZ(Alphabet[i]);
    }
    DistinctCard(Alphabet);
  }

  /**
   * The generator `s for s in string_to_encrypt.lower() if s in Alphabet`:
   * every letter occurrence, folded to lower case, in text order.
   */
  function Letters(s: string): (r: string)
    ensures forall c :: c in r ==> c in Alphabet
    ensures |r| <= |s|
    ensures forall c :: multiset(r)[c] == if c in Alphabet then multiset(LowerString(s))[c] else 0
  {
    if s == [] then []
    else
      var c := Lower(s[0]);
      assert LowerString(s) == [c] + LowerString(s[1..]);
      (if c in Alphabet then [c] else []) + Letters(s[1..])
  }

  /** `set(quote.lower()).intersection(Alphabet)`. */
  function LetterSet(s: string): set<char> {
    set c | c in LowerString(s) && c in Alphabet
  }

  lemma LetterSetOfLetters(s: string)
    ensures LetterSet(s) == Elements(Letters(s))
  {
    forall c ensures c in LetterSet(s) <==> c in Letters(s) {
      assert c in Letters(s) <==> multiset(Letters(s))[c] > 0;
      assert c in LowerString(s) <==> multiset(LowerString(s))[c] > 0;
    }
  }

  /** There are at most 26 distinct letters in any text. */
  lemma LetterSetSize(s: string)
    ensures LetterSet(s) <= Elements(Alphabet) && |LetterSet(s)| <= 26
  {
    AlphabetDistinct();
    var a, b := LetterSet(s), Elements(Alphabet);
    assert a <= b;
    assert b == a + (b - a) && a * (b - a) == {};
  }

  /** An upper-case letter of the text contributes its lower-case form. */
  lemma UpperContributesLower(s: string, i: nat)
    requires i < |s| && ('A' <= s[i] <= 'Z' || 'a' <= s[i] <= 'z')
    ensures Lower(s[i]) in LetterSet(s)
  {
    AlphabetIsAToZ(Lower(s[i]));
    assert LowerString(s)[i] == Lower(s[i]);
  }

  /** Python's `str.isspace()`: the characters `str.split()` splits on. */
  predicate IsSpace(c: char) {
    var n := c as int;
    (9 <= n <= 13) || (0x1c <= n <= 0x20) || n == 0x85 || n == 0xa0 || n == 0x1680
    || (0x2000 <= n <= 0x200a) || n == 0x2028 || n == 0x2029 || n == 0x202f || n == 0x205f || n == 0x3000
  }

  predicate NoSpace(w: string) {
    forall i :: 0 <= i < |w| ==> !IsSpace(w[i])
  }

  /** The longest prefix of `s` holding no whitespace. */
  function Word(s: string): (w: string)
    ensures |w| <= |s| && w == s[..|w|] && NoSpace(w)
    ensures |w| < |s| ==> IsSpace(s[|w|])
  {
    if s == [] || IsSpace(s[0]) then [] else [s[0]] + Word(s[1..])
  }

  /** `s.split()`: the maximal runs of non-whitespace, in order. */
  function Split(s: string): (r: seq<string>)
    ensures forall i :: 0 <= i < |r| ==> r[i] != [] && NoSpace(r[i])
    decreases |s|
  {
    if s == [] then []
    else if IsSpace(s[0]) then Split(s[1..])
    else
      var w := Word(s);
      [w] + Split(s[|w|..])
  }

  /** `" ".join(ws)`. */
  function Join(ws: seq<string>): string {
    if ws == [] then ""
    else if |ws| == 1 then ws[0]
    else ws[0] + " " + Join(ws[1..])
  }

  lemma {:induction false} WordOfPrefix(w: string, t: string)
    requires NoSpace(w) && (t == [] || IsSpace(t[0]))
    ensures Word(w + t) == w
  {
    if w != [] {
      assert (w + t)[1..] == w[1..] + t;
      WordOfPrefix(w[1..], t);
    }
  }

  /** Splitting a join gives back the words when none is empty or holds whitespace. */
  lemma {:induction false} SplitJoin(ws: seq<string>)
    requires forall i :: 0 <= i < |ws| ==> ws[i] != [] && NoSpace(ws[i])
    ensures Split(Join(ws)) == ws
  {
    if ws == [] {
    } else if |ws| == 1 {
      WordOfPrefix(ws[0], []);
      assert ws[0] + [] == ws[0];
      assert ws[0][|ws[0]|..] == [];
    } else {
      var w, rest := ws[0], Join(ws[1..]);
      var s := w + " " + rest;
      WordOfPrefix(w, " " + rest);
      assert w + (" " + rest) == s;
      assert s[0] == w[0];
      assert s[|w|..] == " " + rest;
      assert (" " + rest)[1..] == rest;
      SplitJoin(ws[1..]);
    }
  }

  /** `s.split(" ")[0]`: everything before the first plain space. */
  function FirstField(s: string): (r: string)
    ensures |r| <= |s| && r == s[..|r|] && ' ' !in r
    ensures |r| < |s| ==> s[|r|] == ' '
  {
    if s == [] || s[0] == ' ' then [] else [s[0]] + FirstField(s[1..])
  }

  /** `FirstField(t + u)` recovers `t` exactly when `t` holds no plain space and `u` starts with one. */
  lemma {:induction false} FirstFieldOfConcat(t: string, u: string)
    requires u != [] && u[0] == ' '
    ensures FirstField(t + u) == t <==> ' ' !in t
  {
    if t != [] {
      assert (t + u)[1..] == t[1..] + u;
      FirstFieldOfConcat(t[1..], u);
      assert ' ' in t <==> t[0] == ' ' || ' ' in t[1..];
    } else {
      assert t + u == u;
    }
  }

  /** `k.replace("_", " ")`. */
  function ReplaceUnderscores(k: string): (r: string)
    ensures |r| == |k|
    ensures forall i :: 0 <= i < |k| ==> r[i] == if k[i] == '_' then ' ' else k[i]
  {
    if k == [] then [] else [if k[0] == '_' then ' ' else k[0]] + ReplaceUnderscores(k[1..])
  }

  predicate IsCased(c: char) {
    'a' <= c <= 'z' || 'A' <= c <= 'Z'
  }

  function Upper(c: char): char {
    if 'a' <= c <= 'z' then (c as int - 32) as char else c
  }

  /** `str.title()` for ASCII: a letter after a letter is lowered, any other letter raised. */
  function TitleAfter(s: string, afterCased: bool): string {
    if s == [] then []
    else [if afterCased then Lower(s[0]) else Upper(s[0])] + TitleAfter(s[1..], IsCased(s[0]))
  }

  function Title(s: string): string {
    TitleAfter(s, false)
  }

  /** `str(n)` for a natural number: its decimal digits. */
  function NatToString(n: nat): (r: string)
    ensures r != []
    ensures forall i :: 0 <= i < |r| ==> '0' <= r[i] <= '9'
  {
    var d := ['0' + (n % 10) as char];
    if n < 10 then d else NatToString(n / 10) + d
  }

  /** `str(i)` for an integer. */
  function IntToString(i: int): string {
    if i < 0 then "-" + NatToString(-i) else NatToString(i)
  }

  /** Python's `<` on `str`: code-point by code-point, a proper prefix first. */
  predicate LexLess(a: string, b: string) {
    if a == [] then b != []
    else if b == [] then false
    else if a[0] != b[0] then a[0] < b[0]
    else LexLess(a[1..], b[1..])
  }

  lemma {:induction false} LexIrreflexive(a: string)
    ensures !LexLess(a, a)
  {
    if a != [] { LexIrreflexive(a[1..]); }
  }

  lemma {:induction false} LexTransitive(a: string, b: string, c: string)
    requires LexLess(a, b) && LexLess(b, c)
    ensures LexLess(a, c)
  {
    if a != [] && b != [] && c != [] && a[0] == b[0] && b[0] == c[0] {
      LexTransitive(a[1..], b[1..], c[1..]);
    }
  }

  lemma {:induction false} LexTotal(a: string, b: string)
    requires a != b
    ensures LexLess(a, b) || LexLess(b, a)
  {
    if a != [] && b != [] && a[0] == b[0] {
      assert a == [a[0]] + a[1..] && b == [b[0]] + b[1..];
      LexTotal(a[1..], b[1..]);
    }
  }
}
