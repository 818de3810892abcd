/**
 * The cipher-map generator `get_new_letter_map`. The icon pool, which the
 * source loads from a resource file, is a parameter, and so are the two
 * things the runtime chooses: the order in which the set of letters iterates
 * and the 26 distinct positions `random.sample` picks from the pool.
 */
module LetterMap {
  import opened Wrappers
  import opened Seqs
  import opened Text
  import opened PyValues
  import opened Dicts

  /** `order` lists each element of `s` exactly once. */
  predicate IsEnumeration(order: seq<char>, s: set<char>) {
    Distinct(order) && Elements(order) == s
  }

  /** `picks` are `k` distinct positions of a pool of size `n`. */
  predicate IsSample(picks: seq<nat>, n: nat, k: nat) {
    |picks| == k && Distinct(picks) && forall i :: 0 <= i < k ==> picks[i] < n
  }

  /** `random.sample(icons, |picks|)` when it picks the positions `picks`. */
  function Sample(icons: seq<string>, picks: seq<nat>): (r: seq<string>)
    requires IsSample(picks, |icons|, |picks|)
    ensures |r| == |picks| && forall i :: 0 <= i < |r| ==> r[i] == icons[picks[i]]
  {
    seq(|picks|, i requires 0 <= i < |picks| => icons[picks[i]])
  }

  /** Distinct positions of a pool without repeats draw distinct icons. */
  lemma SampleDistinct(icons: seq<string>, picks: seq<nat>)
    requires IsSample(picks, |icons|, |picks|)
    ensures Distinct(icons) ==> Distinct(Sample(icons, picks))
  {
    var r := Sample(icons, picks);
    if Distinct(icons) {
      forall i, j | 0 <= i < j < |r| ensures r[i] != r[j] {
        assert picks[i] != picks[j];
        if picks[i] < picks[j] {
          assert icons[picks[i]] != icons[picks[j]];
        } else {
          assert icons[picks[j]] != icons[picks[i]];
        }
      }
    }
  }

  /** `zip(a, b)`: pairs up to the shorter length. */
  function Zip<A, B>(a: seq<A>, b: seq<B>): (r: seq<(A, B)>)
    ensures |r| == if |a| <= |b| then |a| else |b|
    ensures forall i :: 0 <= i < |r| ==> r[i] == (a[i], b[i])
  {
    if a == [] || b == [] then [] else [(a[0], b[0])] + Zip(a[1..], b[1..])
  }

  /** The pairs `zip(order, drawn)` with distinct `order` form a dict with those keys and values. */
  lemma ZipToDict(order: seq<char>, drawn: seq<string>)
    requires Distinct(order) && |order| <= |drawn|
    ensures Union([], Zip(order, drawn)) == Zip(order, drawn)
    ensures Keys(Zip(order, drawn)) == order && DistinctKeys(Zip(order, drawn))
    ensures forall i :: 0 <= i < |order| ==> Zip(order, drawn)[i].1 == drawn[i]
  {
    var pairs := Zip(order, drawn);
    assert Keys(pairs) == order;
    UnionOfFreshKeys([], pairs);
  }

  /**
   * `get_new_letter_map(quote)`: every distinct letter of `quote.lower()`
   * paired with one of 26 icons sampled without replacement. The sample is
   * drawn whatever the quote, so a pool of fewer than 26 icons always fails.
   */
  function GetNewLetterMap(quote: string, icons: seq<string>, order: seq<char>, picks: seq<nat>)
    : (r: Result<Dict<char, string>, Error>)
    requires IsEnumeration(order, LetterSet(quote))
    requires |icons| >= 26 ==> IsSample(picks, |icons|, 26)
    ensures r.Err? <==> |icons| < 26
    ensures r.Err? ==> r.error == SampleLargerThanPopulation
    ensures r.Ok? ==> Keys(r.value) == order && DistinctKeys(r.value)
    ensures r.Ok? ==> Elements(Keys(r.value)) == LetterSet(quote)
    ensures r.Ok? ==> |r.value| == |LetterSet(quote)| <= 26
    ensures r.Ok? ==> forall i :: 0 <= i < |r.value| ==> r.value[i].1 in icons
    ensures r.Ok? && Distinct(icons) ==>
              forall i, j :: 0 <= i < j < |r.value| ==> r.value[i].1 != r.value[j].1
  {
    if |icons| < 26 then Err(SampleLargerThanPopulation)
    else
      var drawn := Sample(icons, picks);
      LetterSetSize(quote);
      DistinctCard(order);
      ZipToDict(order, drawn);
      SampleDistinct(icons, picks);
      Ok(Union([], Zip(order, drawn)))
  }
}
