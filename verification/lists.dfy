/**
 * The list and string built-ins that the game and the strategies lean on:
 * counting a character with a running counter, `max` of a list of scores,
 * `list.index` of a value, and the sum used to measure the search work.
 */
module Lists {

  /** Number of occurrences of `c` in `s`, counted front to back. */
  function Count(s: seq<char>, c: char): nat
  {
    if s == [] then 0 else Count(s[..|s| - 1], c) + (if s[|s| - 1] == c then 1 else 0)
  }

  /** The running count is the multiplicity of `c` in `s`. */
  lemma {:induction false} CountIsMultiplicity(s: seq<char>, c: char)
    ensures Count(s, c) == multiset(s)[c]
    ensures Count(s, c) <= |s|
    ensures Count(s, c) == 0 <==> c !in s
    decreases |s|
  {
    if s != [] {
      assert s == s[..|s| - 1] + [s[|s| - 1]];
      CountIsMultiplicity(s[..|s| - 1], c);
    }
  }

  /** Python's `max` on a non-empty list of integers. */
  function Max(xs: seq<int>): (m: int)
    requires |xs| > 0
    ensures m in xs
    ensures forall i :: 0 <= i < |xs| ==> xs[i] <= m
  {
    if |xs| == 1 then xs[0]
    else
      var r := Max(xs[..|xs| - 1]);
      if xs[|xs| - 1] > r then xs[|xs| - 1] else r
  }

  /** Python's `list.index`: the first position holding `v`. */
  function IndexOf(xs: seq<int>, v: int): (i: nat)
    requires v in xs
    ensures i < |xs| && xs[i] == v
    ensures forall j :: 0 <= j < i ==> xs[j] != v
  {
    if xs[0] == v then 0 else 1 + IndexOf(xs[1..], v)
  }

  /** `xs.index(max(xs))`: the first position of a largest element. */
  function FirstMaxIndex(xs: seq<int>): (i: nat)
    requires |xs| > 0
    ensures i < |xs|
    ensures forall j :: 0 <= j < |xs| ==> xs[j] <= xs[i]
    ensures forall j :: 0 <= j < i ==> xs[j] < xs[i]
  {
    IndexOf(xs, Max(xs))
  }

  /** A position holding a largest element, with every earlier element smaller, is FirstMaxIndex. */
  lemma FirstMaxUnique(xs: seq<int>, i: nat)
    requires i < |xs|
    requires forall j :: 0 <= j < |xs| ==> xs[j] <= xs[i]
    requires forall j :: 0 <= j < i ==> xs[j] < xs[i]
    ensures i == FirstMaxIndex(xs)
  {
    var k := FirstMaxIndex(xs);
    assert xs[k] <= xs[i] && xs[i] <= xs[k];
  }

  /**
   * A scan of `xs[..n]` that keeps only strict improvements has found `best`
   * at `bi`: nothing scanned exceeds it and everything before `bi` is smaller.
   */
  predicate FirstMaxOfPrefix(xs: seq<int>, n: nat, bi: nat, best: int)
  {
    && n <= |xs| && bi < n && best == xs[bi]
    && (forall j :: 0 <= j < n ==> xs[j] <= best)
    && (forall j :: 0 <= j < bi ==> xs[j] < best)
  }

  /** One step of the scan: a strictly larger element takes over, any other is passed over. */
  lemma FirstMaxStep(xs: seq<int>, n: nat, bi: nat, best: int)
    requires FirstMaxOfPrefix(xs, n, bi, best) && n < |xs|
    ensures xs[n] > best ==> FirstMaxOfPrefix(xs, n + 1, n, xs[n])
    ensures xs[n] <= best ==> FirstMaxOfPrefix(xs, n + 1, bi, best)
  {
  }

  /** Python's `any` over a list of booleans. */
  predicate Any(bs: seq<bool>)
  {
    bs != [] && (Any(bs[..|bs| - 1]) || bs[|bs| - 1])
  }

  /** `any` holds exactly when some element is true. */
  lemma {:induction false} AnyIff(bs: seq<bool>)
    ensures Any(bs) <==> exists i :: 0 <= i < |bs| && bs[i]
    decreases |bs|
  {
    if bs != [] {
      var init := bs[..|bs| - 1];
      AnyIff(init);
      if exists i :: 0 <= i < |init| && init[i] {
        var i :| 0 <= i < |init| && init[i];
        assert bs[i];
      }
      if exists i :: 0 <= i < |bs| && bs[i] {
        var i :| 0 <= i < |bs| && bs[i];
        if i < |init| {
          assert init[i];
        }
      }
    }
  }

  /** Sum of a list of naturals. */
  function Sum(xs: seq<nat>): nat
  {
    if xs == [] then 0 else Sum(xs[..|xs| - 1]) + xs[|xs| - 1]
  }
}
