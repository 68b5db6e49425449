/**
 * Codename generation: draw an adjective and a noun from two fixed word lists,
 * compose "The <Adjective> <Noun>" and retry until no stored gadget carries it.
 *
 * The random numbers are an input: a finite stream of draws, each draw holding the two
 * values `Math.random()` returns in one round. The source retries without bound; here a
 * stream that runs out before a free codename is found stands for a search that is still
 * going on, and the result is then `None`.
 */
module CodenameGenerator {
  import opened Wrappers
  import opened Gadgets

  const Adjectives: seq<string> :=
    ["Phantom", "Shadow", "Silent", "Stealth", "Covert",
     "Midnight", "Golden", "Silver", "Iron", "Ghost"]

  const Nouns: seq<string> :=
    ["Eagle", "Phoenix", "Hawk", "Falcon", "Wolf",
     "Viper", "Cobra", "Raven", "Panther", "Tiger"]

  /** A value of `Math.random()`: a real in [0, 1). */
  type Random = r: real | 0.0 <= r < 1.0

  /** The random values one round of the loop consumes. */
  datatype Draw = Draw(adjective: Random, noun: Random)

  /** `Math.floor(r * n)`: an index into a list of length `n`. */
  function PickIndex(r: Random, n: nat): (i: nat)
    requires n > 0
    ensures i < n
  {
    assert r * (n as real) < n as real by {
      assert (1.0 - r) * (n as real) > 0.0;
    }
    (r * (n as real)).Floor
  }

  /** The codename built from the adjective at `a` and the noun at `n`. */
  function Compose(a: nat, n: nat): string
    requires a < |Adjectives| && n < |Nouns|
  {
    "The " + Adjectives[a] + " " + Nouns[n]
  }

  /** The codename one round of the loop tries. */
  function Candidate(d: Draw): (c: string)
    ensures IsGeneratorCodename(c)
  {
    Compose(PickIndex(d.adjective, |Adjectives|), PickIndex(d.noun, |Nouns|))
  }

  /** `c` has the form "The <Adjective> <Noun>" with both words from the lists. */
  ghost predicate IsGeneratorCodename(c: string) {
    exists a: nat, n: nat | a < |Adjectives| && n < |Nouns| :: c == Compose(a, n)
  }

  /**
   * `generateCodename`: the first candidate in the draws that no stored gadget uses.
   * It only looks the candidates up; the table is not written.
   */
  method GenerateCodename(db: GadgetTable, draws: seq<Draw>) returns (codename: Option<string>)
    ensures codename.Some? ==>
      IsGeneratorCodename(codename.value) && !CodenameInUse(db.rows, codename.value)
    ensures codename.Some? ==>
      exists i | 0 <= i < |draws| ::
        codename.value == Candidate(draws[i]) &&
        forall j | 0 <= j < i :: CodenameInUse(db.rows, Candidate(draws[j]))
    ensures codename.None? <==>
      forall i | 0 <= i < |draws| :: CodenameInUse(db.rows, Candidate(draws[i]))
  {
    var isUnique := false;
    var name := "";
    var k := 0;
    while !isUnique && k < |draws|
      invariant 0 <= k <= |draws|
      invariant isUnique ==> 0 < k && name == Candidate(draws[k - 1]) && !CodenameInUse(db.rows, name)
      invariant forall j | 0 <= j < (if isUnique then k - 1 else k) :: CodenameInUse(db.rows, Candidate(draws[j]))
      decreases |draws| - k, !isUnique
    {
      var d := draws[k];
      var adjective := Adjectives[PickIndex(d.adjective, |Adjectives|)];
      var noun := Nouns[PickIndex(d.noun, |Nouns|)];
      name := "The " + adjective + " " + noun;
      var existing := CodenameInUse(db.rows, name);
      if !existing {
        isUnique := true;
      }
      k := k + 1;
    }
    if isUnique {
      codename := Some(name);
    } else {
      codename := None;
    }
  }

  /** Both lists hold ten words, so there are a hundred combinations. */
  const Combinations: nat := 100

  /** The `k`-th combination, counting adjective-major (wrapping past the last one). */
  function ComposeAt(k: nat): string {
    assert |Adjectives| == 10 && |Nouns| == 10;
    Compose((k / 10) % 10, k % 10)
  }

  /** Every generator codename, enumerated by combination index. */
  ghost function AllCodenames(): set<string> {
    set k: nat | k < Combinations :: ComposeAt(k)
  }

  /** The generator codenames among the stored gadgets. */
  ghost function GeneratorCodenamesInUse(rows: map<Id, Gadget>): set<string> {
    set id | id in rows && IsGeneratorCodename(rows[id].codename) :: rows[id].codename
  }

  /** The images of the first `count` naturals under `f` number at most `count`. */
  lemma {:induction false} ImageBound(f: nat -> string, count: nat)
    ensures |set k: nat | k < count :: f(k)| <= count
  {
    if count > 0 {
      ImageBound(f, count - 1);
      var fewer := set k: nat | k < count - 1 :: f(k);
      var all := set k: nat | k < count :: f(k);
      assert all == fewer + {f(count - 1)};
    }
  }

  /** The index `a * 10 + n` of a combination decodes back to `(a, n)`. */
  lemma CombinationIndex(a: nat, n: nat)
    requires a < 10 && n < 10
    ensures ((a * 10 + n) / 10) % 10 == a && (a * 10 + n) % 10 == n
  {
  }

  /** Each generator codename is in the enumeration. */
  lemma GeneratorCodenameEnumerated(c: string)
    requires IsGeneratorCodename(c)
    ensures c in AllCodenames()
  {
    var a: nat, n: nat :| a < |Adjectives| && n < |Nouns| && c == Compose(a, n);
    assert |Adjectives| == 10 && |Nouns| == 10;
    CombinationIndex(a, n);
    var k := a * 10 + n;
    assert ComposeAt(k) == Compose(a, n);
  }

  /** A subset at least as large as its superset is the whole superset. */
  lemma {:induction false} LargeSubsetIsAll(used: set<string>, all: set<string>)
    requires used <= all && |used| >= |all|
    ensures all <= used
  {
    assert all == (all - used) + used;
    assert |all - used| == 0;
  }

  /**
   * Exhaustion: once 100 distinct generator codenames are stored, every one of the 100
   * combinations is in use, so no round of the retry loop can succeed and the search
   * never ends.
   */
  lemma FullTableBlocksGenerator(rows: map<Id, Gadget>)
    requires |GeneratorCodenamesInUse(rows)| >= Combinations
    ensures forall a: nat, n: nat | a < |Adjectives| && n < |Nouns| :: CodenameInUse(rows, Compose(a, n))
    ensures forall d: Draw :: CodenameInUse(rows, Candidate(d))
  {
    var used := GeneratorCodenamesInUse(rows);
    var all := AllCodenames();
    forall c | c in used ensures c in all {
      GeneratorCodenameEnumerated(c);
    }
    var f: nat -> string := ComposeAt;
    ImageBound(f, Combinations);
    assert all == set k: nat | k < Combinations :: f(k);
    LargeSubsetIsAll(used, all);
    forall c | IsGeneratorCodename(c) ensures CodenameInUse(rows, c) {
      GeneratorCodenameEnumerated(c);
      assert c in used;
    }
  }
}
