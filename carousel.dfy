/** The snippet carousel: one index over a fixed list of code snippets,
    stepped forwards and backwards with wrap-around, set directly by a dot,
    and advanced by a timer tick. */
module Carousel {

  /** What the carousel shows of a snippet besides its code text. */
  datatype Snippet = Snippet(title: string, filename: string)

  const Snippets: seq<Snippet> := [
    Snippet("Draw Menu UI", "menu.c"),
    Snippet("Update Arena", "arena.c"),
    Snippet("Ball Physics + Scoring", "ball.c"),
    Snippet("Bot Paddle AI", "bot.c"),
    Snippet("Player Paddle via Potentiometer", "player.c"),
    Snippet("Settings Display Text", "settings.c"),
    Snippet("Main Game Loop", "main.c")
  ]

  /** The number of snippets, `snippets.length`. */
  const N: nat := |Snippets|

  lemma SnippetCount()
    ensures N == 7
  {
  }

  /** The index `next` moves to: `(index + 1) % snippets.length`. */
  function Succ(i: nat): (r: nat)
    requires i < N
    ensures r < N
    ensures i < N - 1 ==> r == i + 1
    ensures i == N - 1 ==> r == 0
  {
    (i + 1) % N
  }

  /** The index `prev` moves to: `(index - 1 + snippets.length) % snippets.length`.
      The dividend is never negative, so Dafny's `%` agrees with JavaScript's. */
  function Pred(i: nat): (r: nat)
    requires i < N
    ensures r < N
    ensures 0 < i ==> r == i - 1
    ensures i == 0 ==> r == N - 1
  {
    (i - 1 + N) % N
  }

  /** Going back undoes going forward. */
  lemma PredSucc(i: nat)
    requires i < N
    ensures Pred(Succ(i)) == i
  {
  }

  /** Going forward undoes going back. */
  lemma SuccPred(i: nat)
    requires i < N
    ensures Succ(Pred(i)) == i
  {
  }

  /** The index after `k` consecutive `next` steps (or timer ticks). */
  function SuccIter(i: nat, k: nat): (r: nat)
    requires i < N
    ensures r < N
    decreases k
  {
    if k == 0 then i else Succ(SuccIter(i, k - 1))
  }

  /** `k` steps forward land on the start shifted by `k`, modulo the snippet count. */
  lemma {:induction false} SuccIterShift(i: nat, k: nat)
    requires i < N
    ensures SuccIter(i, k) == (i + k) % N
    decreases k
  {
    if k > 0 {
      SuccIterShift(i, k - 1);
      var m := (i + k - 1) % N;
      assert i + k - 1 == N * ((i + k - 1) / N) + m;
      if m < N - 1 {
        assert i + k == N * ((i + k - 1) / N) + (m + 1);
      } else {
        assert i + k == N * ((i + k - 1) / N + 1);
      }
    }
  }

  /** Cycling forward through all snippets returns to the starting one. */
  lemma Period(i: nat)
    requires i < N
    ensures SuccIter(i, N) == i
  {
    SuccIterShift(i, N);
    assert (i + N) % N == i;
  }

  /** One step back is the same as `N - 1` steps forward. */
  lemma PredIsSuccIter(i: nat)
    requires i < N
    ensures Pred(i) == SuccIter(i, N - 1)
  {
    SuccIterShift(i, N - 1);
  }

  /** From any index, the auto-advance brings every snippet on screen
      within fewer than N ticks. */
  lemma EverySnippetShown(i: nat, j: nat)
    requires i < N && j < N
    ensures exists k :: 0 <= k < N && SuccIter(i, k) == j
  {
    var k := (j - i + N) % N;
    SuccIterShift(i, k);
  }

  /** Whether each dot is highlighted: the dot's position equals `index`. */
  function Dots(index: nat): (r: seq<bool>)
    ensures |r| == N
    ensures forall j :: 0 <= j < N ==> (r[j] <==> j == index)
  {
    DotsUpTo(N, index)
  }

  function DotsUpTo(n: nat, index: nat): (r: seq<bool>)
    ensures |r| == n
  {
    seq(n, j => j == index)
  }

  function CountTrue(s: seq<bool>): (c: nat)
    ensures c <= |s|
  {
    if s == [] then 0 else CountTrue(s[..|s| - 1]) + (if s[|s| - 1] then 1 else 0)
  }

  lemma {:induction false} CountDotsUpTo(n: nat, index: nat)
    ensures CountTrue(DotsUpTo(n, index)) == if index < n then 1 else 0
    decreases n
  {
    if n > 0 {
      var s := DotsUpTo(n, index);
      assert s[..n - 1] == DotsUpTo(n - 1, index);
      CountDotsUpTo(n - 1, index);
    }
  }

  /** Exactly one dot is highlighted, and it is the one at the current index. */
  lemma ExactlyOneDot(index: nat)
    requires index < N
    ensures Dots(index)[index]
    ensures CountTrue(Dots(index)) == 1
  {
    CountDotsUpTo(N, index);
  }

  /** The counter `[index + 1 / snippets.length]` shows a position from 1 to N. */
  function Counter(index: nat): (r: nat)
    requires index < N
    ensures 1 <= r <= N
    ensures r - 1 == index
  {
    index + 1
  }

  /** The component's `index` state slot. */
  class CodeCarousel {
    var index: nat

    ghost predicate Valid()
      reads this
    {
      index < N
    }

    /** `useState(0)`. */
    constructor ()
      ensures Valid()
      ensures index == 0
    {
      index := 0;
    }

    /** The right arrow. */
    method Next()
      requires Valid()
      modifies this
      ensures Valid()
      ensures index == Succ(old(index))
    {
      index := (index + 1) % N;
    }

    /** The left arrow. */
    method Prev()
      requires Valid()
      modifies this
      ensures Valid()
      ensures index == Pred(old(index))
    {
      index := (index - 1 + N) % N;
    }

    /** A click on dot `i`; only dots `0 .. N - 1` are rendered. */
    method Select(i: nat)
      requires Valid()
      requires i < N
      modifies this
      ensures Valid()
      ensures index == i
    {
      index := i;
    }

    /** The interval callback, which is the `next` of the current render. */
    method Tick()
      requires Valid()
      modifies this
      ensures Valid()
      ensures index == Succ(old(index))
    {
      Next();
    }

    /** The entry rendered for the current index: the one whose filename,
        title and code the component renders. */
    function Current(): (s: Snippet)
      requires Valid()
      reads this
    {
      Snippets[index]
    }
  }
}
