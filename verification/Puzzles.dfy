/**
 Puzzles and guess evaluation: GameService.evaluateGuessOnPuzzle
 (backend/src/modules/game/game.service.ts) and the facts about word pools made
 of whole groups that every solver relies on.
 */
module Puzzles {
  import opened Collections
  type Word = string

  const GROUP_SIZE := 4

  datatype GuessResult = Success | Failure | OffByOne | Duplicate

  /**
   The answer groups, with the two word normalisers the program uses: `trim` is
   String.trim and `norm` is trim followed by lower-casing. Nothing proved here
   depends on which functions they are.
   */
  datatype Puzzle = Puzzle(groups: seq<seq<Word>>, trim: Word -> Word, norm: Word -> Word) {

    /** Groups of four, and no two members of the board normalise alike. */
    ghost predicate WellFormed() {
      && (forall i :: 0 <= i < |groups| ==> |groups[i]| == GROUP_SIZE)
      && (forall i, a, j, b |
            && 0 <= i < |groups| && 0 <= a < |groups[i]| && 0 <= j < |groups| && 0 <= b < |groups[j]|
            && norm(groups[i][a]) == norm(groups[j][b]) :: i == j && a == b)
    }

    predicate OnBoard(w: Word) {
      exists i :: 0 <= i < |groups| && w in groups[i]
    }
  }

  function NormSet(p: Puzzle, words: seq<Word>): set<Word> {
    set w | w in words :: p.norm(w)
  }

  /** How many members of a group were guessed. */
  function Matches(p: Puzzle, group: seq<Word>, guessed: set<Word>): (n: nat)
    ensures n <= |group|
  {
    if group == [] then 0
    else (if p.norm(group[0]) in guessed then 1 else 0) + Matches(p, group[1..], guessed)
  }

  predicate AllMatched(p: Puzzle, i: nat, guessed: set<Word>)
    requires i < |p.groups|
  {
    Matches(p, p.groups[i], guessed) == GROUP_SIZE && |p.groups[i]| == GROUP_SIZE
  }

  /** The verdict from group i on, when `off` says an earlier group had three matches. */
  function EvaluateFrom(p: Puzzle, guessed: set<Word>, i: nat, off: bool): GuessResult
    requires i <= |p.groups|
    decreases |p.groups| - i
  {
    if i == |p.groups| then (if off then OffByOne else Failure)
    else if AllMatched(p, i, guessed) then Success
    else EvaluateFrom(p, guessed, i + 1, off || Matches(p, p.groups[i], guessed) == 3)
  }

  function Evaluate(p: Puzzle, words: seq<Word>): GuessResult {
    EvaluateFrom(p, NormSet(p, words), 0, false)
  }

  method EvaluateGuess(p: Puzzle, words: seq<Word>) returns (result: GuessResult)
    ensures result == Evaluate(p, words)
  {
    var guessed := NormSet(p, words);
    var isOffByOne := false;
    for i := 0 to |p.groups|
      invariant EvaluateFrom(p, guessed, i, isOffByOne) == Evaluate(p, words)
    {
      var matches := Matches(p, p.groups[i], guessed);
      if matches == 4 && |p.groups[i]| == 4 {
        return Success;
      }
      if matches == 3 {
        isOffByOne := true;
      }
    }
    return if isOffByOne then OffByOne else Failure;
  }

  /** What the verdict means: a whole group, else three of some group, else neither. */
  lemma {:induction false} EvaluateFromMeans(p: Puzzle, guessed: set<Word>, i: nat, off: bool)
    requires i <= |p.groups|
    ensures var r := EvaluateFrom(p, guessed, i, off);
            && (r == Success <==> exists k: nat :: i <= k < |p.groups| && AllMatched(p, k, guessed))
            && (r == OffByOne <==>
                  && r != Success
                  && (off || exists k: nat :: i <= k < |p.groups| && Matches(p, p.groups[k], guessed) == 3))
            && r != Duplicate
    decreases |p.groups| - i
  {
    if i < |p.groups| && !AllMatched(p, i, guessed) {
      EvaluateFromMeans(p, guessed, i + 1, off || Matches(p, p.groups[i], guessed) == 3);
    }
  }

  function Norms(p: Puzzle, words: seq<Word>): seq<Word> {
    seq(|words|, a requires 0 <= a < |words| => p.norm(words[a]))
  }

  lemma NormSetCons(p: Puzzle, group: seq<Word>)
    requires group != []
    ensures NormSet(p, group) == {p.norm(group[0])} + NormSet(p, group[1..])
    ensures Distinct(Norms(p, group)) ==>
              Distinct(Norms(p, group[1..])) && p.norm(group[0]) !in NormSet(p, group[1..])
  {
    assert group == [group[0]] + group[1..];
    assert forall a :: 0 <= a < |group| - 1 ==> Norms(p, group[1..])[a] == Norms(p, group)[a + 1];
    if w :| w in group[1..] && p.norm(w) == p.norm(group[0]) {
      var a :| 0 <= a < |group| - 1 && group[1..][a] == w;
      assert Norms(p, group)[a + 1] == Norms(p, group)[0];
    }
  }

  lemma {:induction false} MatchesAll(p: Puzzle, group: seq<Word>, guessed: set<Word>)
    ensures Matches(p, group, guessed) == |group| <==> forall w :: w in group ==> p.norm(w) in guessed
  {
    if group != [] {
      MatchesAll(p, group[1..], guessed);
      assert forall w :: w in group <==> w == group[0] || w in group[1..];
    }
  }

  /** Members that normalise differently are counted once each. */
  lemma {:induction false} MatchesCounts(p: Puzzle, group: seq<Word>, guessed: set<Word>)
    requires Distinct(Norms(p, group))
    ensures Matches(p, group, guessed) == |NormSet(p, group) * guessed|
  {
    if group != [] {
      NormSetCons(p, group);
      MatchesCounts(p, group[1..], guessed);
      OneMoreShared(p.norm(group[0]), NormSet(p, group[1..]), guessed);
    }
  }

  lemma OneMoreShared<T>(x: T, s: set<T>, t: set<T>)
    requires x !in s
    ensures |({x} + s) * t| == (if x in t then 1 else 0) + |s * t|
  {
    if x in t {
      assert ({x} + s) * t == s * t + {x};
    } else {
      assert ({x} + s) * t == s * t;
    }
  }

  /**
   The verdict on any guess against a well-formed board, by the words it shares with each
   group: all four, else three, else fewer.
   */
  lemma VerdictExactly(p: Puzzle, words: seq<Word>)
    requires p.WellFormed()
    ensures var r := Evaluate(p, words);
            && (r == Success <==> exists i :: 0 <= i < |p.groups| && NormSet(p, p.groups[i]) <= NormSet(p, words))
            && (r == OffByOne <==>
                  && r != Success
                  && exists i :: 0 <= i < |p.groups| && |NormSet(p, p.groups[i]) * NormSet(p, words)| == 3)
            && r != Duplicate
  {
    var guessed := NormSet(p, words);
    EvaluateFromMeans(p, guessed, 0, false);
    forall i | 0 <= i < |p.groups|
      ensures AllMatched(p, i, guessed) <==> NormSet(p, p.groups[i]) <= guessed
      ensures Matches(p, p.groups[i], guessed) == |NormSet(p, p.groups[i]) * guessed|
    {
      MatchesAll(p, p.groups[i], guessed);
      MatchesCounts(p, p.groups[i], guessed);
    }
  }

  // ----- word pools -----

  /** `pool.filter((w) => !words.includes(w))`. */
  function Without(pool: seq<Word>, words: seq<Word>): (r: seq<Word>)
    ensures forall w :: w in r <==> w in pool && w !in words
  {
    if pool == [] then []
    else (if pool[0] in words then [] else [pool[0]]) + Without(pool[1..], words)
  }

  /** Filtering goes word by word, and keeps the order. */
  lemma {:induction false} WithoutAppend(a: seq<Word>, b: seq<Word>, words: seq<Word>)
    ensures Without(a + b, words) == Without(a, words) + Without(b, words)
    ensures |b| == 1 ==> Without(b, words) == if b[0] in words then [] else b
  {
    if a == [] {
      assert a + b == b;
    } else {
      assert (a + b)[1..] == a[1..] + b;
      WithoutAppend(a[1..], b, words);
    }
  }

  /** Each group of the puzzle is in the pool whole or not at all; nothing else is. */
  ghost predicate WholeGroups(p: Puzzle, pool: seq<Word>) {
    && Distinct(pool)
    && |pool| % GROUP_SIZE == 0
    && (forall w :: w in pool ==> p.OnBoard(w))
    && (forall i, w, v :: 0 <= i < |p.groups| && w in p.groups[i] && v in p.groups[i] && w in pool ==> v in pool)
  }

  lemma NormsElems(p: Puzzle, words: seq<Word>)
    ensures Elems(Norms(p, words)) == NormSet(p, words)
  {
    forall w | w in words ensures p.norm(w) in Norms(p, words) {
      var a :| 0 <= a < |words| && words[a] == w;
      assert Norms(p, words)[a] == p.norm(w);
    }
  }

  /** On a well-formed board, equal normal forms mean equal words in one group. */
  lemma SameNorm(p: Puzzle, w: Word, v: Word, i: nat)
    requires p.WellFormed() && i < |p.groups| && w in p.groups[i] && p.OnBoard(v)
    requires p.norm(w) == p.norm(v)
    ensures w == v && v in p.groups[i]
  {
    var j :| 0 <= j < |p.groups| && v in p.groups[j];
    var a :| 0 <= a < |p.groups[i]| && p.groups[i][a] == w;
    var b :| 0 <= b < |p.groups[j]| && p.groups[j][b] == v;
  }

  /** Naming every member of a group is a success. */
  lemma WholeGroupSucceeds(p: Puzzle, i: nat, words: seq<Word>)
    requires i < |p.groups| && |p.groups[i]| == GROUP_SIZE
    requires forall w :: w in p.groups[i] ==> w in words
    ensures Evaluate(p, words) == Success
  {
    MatchesAll(p, p.groups[i], NormSet(p, words));
    assert AllMatched(p, i, NormSet(p, words));
    EvaluateFromMeans(p, NormSet(p, words), 0, false);
  }

  /** Four guesses that cover the normal forms of four members cover nothing else. */
  lemma CoverIsExact(p: Puzzle, g: seq<Word>, words: seq<Word>)
    requires |words| <= |g| && Distinct(Norms(p, g))
    requires forall w :: w in g ==> p.norm(w) in NormSet(p, words)
    ensures NormSet(p, words) == NormSet(p, g)
  {
    NormsElems(p, g);
    NormsElems(p, words);
    ElemsSize(Norms(p, g));
    ElemsSize(Norms(p, words));
    SubsetOfSameSize(NormSet(p, g), NormSet(p, words));
  }

  /**
   The only way to succeed with four words of the board is to name one whole
   group: the guess and the group have the same members.
   */
  lemma SuccessIsWholeGroup(p: Puzzle, words: seq<Word>) returns (i: nat)
    requires p.WellFormed() && |words| == GROUP_SIZE
    requires forall w :: w in words ==> p.OnBoard(w)
    requires Evaluate(p, words) == Success
    ensures i < |p.groups| && Elems(words) == Elems(p.groups[i])
  {
    EvaluateFromMeans(p, NormSet(p, words), 0, false);
    var k: nat :| k < |p.groups| && AllMatched(p, k, NormSet(p, words));
    var g := p.groups[k];
    MatchesAll(p, g, NormSet(p, words));
    CoverIsExact(p, g, words);
    forall w | w in words ensures w in g {
      assert p.norm(w) in NormSet(p, g);
      var v :| v in g && p.norm(v) == p.norm(w);
      SameNorm(p, v, w, k);
    }
    forall w | w in g ensures w in words {
      assert p.norm(w) in NormSet(p, words);
      var v :| v in words && p.norm(v) == p.norm(w);
      SameNorm(p, w, v, k);
    }
    i := k;
  }

  lemma {:induction false} WithoutDistinct(pool: seq<Word>, words: seq<Word>)
    requires Distinct(pool)
    ensures Distinct(Without(pool, words))
  {
    if pool != [] {
      WithoutDistinct(pool[1..], words);
      assert pool[0] !in pool[1..];
    }
  }

  /** Taking one whole group out of a pool of whole groups leaves whole groups. */
  lemma WithoutGroup(p: Puzzle, pool: seq<Word>, words: seq<Word>, k: nat)
    requires p.WellFormed() && WholeGroups(p, pool) && k < |p.groups|
    requires Elems(words) == Elems(p.groups[k])
    ensures forall i, w, v | 0 <= i < |p.groups| && w in p.groups[i] && v in p.groups[i]
                             && w in Without(pool, words) :: v in Without(pool, words)
  {
    forall i, w, v | 0 <= i < |p.groups| && w in p.groups[i] && v in p.groups[i] && w in Without(pool, words)
      ensures v in Without(pool, words)
    {
      assert w in pool && w !in Elems(words);
      assert v in words ==> v in Elems(words);
    }
  }

  lemma WithoutSize(pool: seq<Word>, words: seq<Word>, g: seq<Word>)
    requires Distinct(pool) && Distinct(g) && Elems(words) == Elems(g)
    requires forall w :: w in words ==> w in pool
    ensures |Without(pool, words)| == |pool| - |g|
  {
    WithoutDistinct(pool, words);
    ElemsSize(Without(pool, words));
    ElemsSize(pool);
    ElemsSize(g);
    SetMinus(Elems(pool), Elems(words), Elems(Without(pool, words)));
  }

  lemma SetMinus<T>(a: set<T>, b: set<T>, d: set<T>)
    requires b <= a && forall x :: x in d <==> x in a && x !in b
    ensures |d| == |a| - |b|
  {
    assert d == a - b;
    assert a == d + b && d !! b;
  }

  /** A successful guess takes exactly one whole group out of the pool. */
  lemma SuccessRemovesGroup(p: Puzzle, pool: seq<Word>, words: seq<Word>)
    requires p.WellFormed() && WholeGroups(p, pool)
    requires |words| == GROUP_SIZE && (forall w :: w in words ==> w in pool)
    requires Evaluate(p, words) == Success
    ensures WholeGroups(p, Without(pool, words))
    ensures |Without(pool, words)| == |pool| - GROUP_SIZE
  {
    var k := SuccessIsWholeGroup(p, words);
    WithoutGroup(p, pool, words, k);
    WithoutDistinct(pool, words);
    WithoutSize(pool, words, p.groups[k]);
  }

  // ----- positions of words in a pool -----

  function Pick(c: seq<int>, pool: seq<Word>): (words: seq<Word>)
    requires forall i :: 0 <= i < |c| ==> 0 <= c[i] < |pool|
    ensures |words| == |c|
  {
    seq(|c|, i requires 0 <= i < |c| => pool[c[i]])
  }

  /** The positions from `from` on whose word belongs to `group`, in order. */
  ghost function Positions(pool: seq<Word>, group: set<Word>, from: nat): (c: seq<int>)
    requires from <= |pool|
    ensures forall i :: 0 <= i < |c| ==> from <= c[i] < |pool| && pool[c[i]] in group
    ensures forall i, j :: 0 <= i < j < |c| ==> c[i] < c[j]
    ensures forall k :: from <= k < |pool| && pool[k] in group ==> k in c
    decreases |pool| - from
  {
    if from == |pool| then []
    else (if pool[from] in group then [from] else []) + Positions(pool, group, from + 1)
  }

  lemma PickedAt(c: seq<int>, pool: seq<Word>, i: nat)
    requires i < |c| && forall k :: 0 <= k < |c| ==> 0 <= c[k] < |pool|
    ensures Pick(c, pool)[i] == pool[c[i]] && pool[c[i]] in Pick(c, pool)
  {
    assert Pick(c, pool)[i] == pool[c[i]];
  }

  lemma FoundAt(pool: seq<Word>, group: set<Word>, w: Word)
    requires w in group && w in pool
    ensures w in Pick(Positions(pool, group, 0), pool)
  {
    var c := Positions(pool, group, 0);
    var at :| 0 <= at < |pool| && pool[at] == w;
    assert at in c;
    var i :| 0 <= i < |c| && c[i] == at;
    PickedAt(c, pool, i);
  }

  lemma NothingElse(pool: seq<Word>, group: set<Word>, w: Word)
    requires w in Pick(Positions(pool, group, 0), pool)
    ensures w in group
  {
    var c := Positions(pool, group, 0);
    var i :| 0 <= i < |c| && Pick(c, pool)[i] == w;
    PickedAt(c, pool, i);
  }

  lemma PositionsCover(pool: seq<Word>, g: seq<Word>)
    requires forall w :: w in g ==> w in pool
    ensures Elems(Pick(Positions(pool, Elems(g), 0), pool)) == Elems(g)
  {
    forall w | w in g ensures w in Pick(Positions(pool, Elems(g), 0), pool) {
      FoundAt(pool, Elems(g), w);
    }
    forall w | w in Pick(Positions(pool, Elems(g), 0), pool) ensures w in g {
      NothingElse(pool, Elems(g), w);
    }
  }

  /** Positions finds every member of a group that lies in the pool, once. */
  lemma PositionsOfGroup(pool: seq<Word>, g: seq<Word>)
    requires Distinct(pool) && Distinct(g) && forall w :: w in g ==> w in pool
    ensures |Positions(pool, Elems(g), 0)| == |g|
    ensures forall w :: w in g ==> w in Pick(Positions(pool, Elems(g), 0), pool)
  {
    var words := Pick(Positions(pool, Elems(g), 0), pool);
    PositionsCover(pool, g);
    PickDistinct(Positions(pool, Elems(g), 0), pool);
    ElemsSize(g);
    ElemsSize(words);
    assert forall w :: w in g ==> w in Elems(words);
  }

  lemma PickDistinct(c: seq<int>, pool: seq<Word>)
    requires forall i :: 0 <= i < |c| ==> 0 <= c[i] < |pool|
    requires forall i, j :: 0 <= i < j < |c| ==> c[i] < c[j]
    requires Distinct(pool)
    ensures Distinct(Pick(c, pool))
  {
  }

  lemma GroupOfFirst(p: Puzzle, pool: seq<Word>) returns (k: nat)
    requires p.WellFormed() && WholeGroups(p, pool) && pool != []
    ensures k < |p.groups| && |p.groups[k]| == GROUP_SIZE && Distinct(p.groups[k])
    ensures forall w :: w in p.groups[k] ==> w in pool
  {
    assert pool[0] in pool && p.OnBoard(pool[0]);
    var i :| 0 <= i < |p.groups| && pool[0] in p.groups[i];
    k := i;
  }

  lemma GroupAtPositions(p: Puzzle, pool: seq<Word>, k: nat)
    requires k < |p.groups| && |p.groups[k]| == GROUP_SIZE && Distinct(p.groups[k]) && Distinct(pool)
    requires forall w :: w in p.groups[k] ==> w in pool
    ensures |Positions(pool, Elems(p.groups[k]), 0)| == GROUP_SIZE
    ensures Evaluate(p, Pick(Positions(pool, Elems(p.groups[k]), 0), pool)) == Success
  {
    PositionsOfGroup(pool, p.groups[k]);
    WholeGroupSucceeds(p, k, Pick(Positions(pool, Elems(p.groups[k]), 0), pool));
  }

  /** A non-empty pool of whole groups holds a group, found at an increasing list of four positions. */
  lemma SomeGroupInPool(p: Puzzle, pool: seq<Word>) returns (c: seq<int>)
    requires p.WellFormed() && WholeGroups(p, pool) && pool != []
    ensures |c| == GROUP_SIZE
    ensures forall i :: 0 <= i < |c| ==> 0 <= c[i] < |pool|
    ensures forall i, j :: 0 <= i < j < |c| ==> c[i] < c[j]
    ensures Evaluate(p, Pick(c, pool)) == Success
  {
    var k := GroupOfFirst(p, pool);
    GroupAtPositions(p, pool, k);
    c := Positions(pool, Elems(p.groups[k]), 0);
  }

  // ----- the whole board -----

  /** `puzzle.answerGroups.flatMap((group) => group.members)`. */
  function Flatten<T(!new)>(groups: seq<seq<T>>): (r: seq<T>)
    ensures forall x :: x in r <==> exists i :: 0 <= i < |groups| && x in groups[i]
  {
    if groups == [] then [] else
      assert groups == [groups[0]] + groups[1..];
      groups[0] + Flatten(groups[1..])
  }

  lemma {:induction false} DistinctCounts<T>(s: seq<T>)
    ensures Distinct(s) <==> forall x :: x in s ==> multiset(s)[x] == 1
  {
    if s != [] {
      DistinctCounts(s[1..]);
      assert s == [s[0]] + s[1..];
      if Distinct(s) {
        assert s[0] !in s[1..];
      } else if forall x :: x in s ==> multiset(s)[x] == 1 {
        assert multiset(s)[s[0]] == 1;
        assert s[0] !in multiset(s[1..]);
        assert forall x :: x in s[1..] ==> x in s && multiset(s)[x] == multiset(s[1..])[x];
      }
    }
  }

  lemma DistinctConcat<T>(a: seq<T>, b: seq<T>)
    requires Distinct(a) && Distinct(b) && forall x :: x in a ==> x !in b
    ensures Distinct(a + b)
  {
    forall i, j | 0 <= i < j < |a + b| ensures (a + b)[i] != (a + b)[j] {
      if i < |a| <= j {
        assert a[i] in a && b[j - |a|] in b;
      }
    }
  }

  lemma {:induction false} FlattenDistinct(groups: seq<seq<Word>>)
    requires forall i :: 0 <= i < |groups| ==> |groups[i]| == GROUP_SIZE && Distinct(groups[i])
    requires forall i, j, w | 0 <= i < j < |groups| && w in groups[i] :: w !in groups[j]
    ensures Distinct(Flatten(groups)) && |Flatten(groups)| == GROUP_SIZE * |groups|
  {
    if groups != [] {
      FlattenDistinct(groups[1..]);
      DistinctConcat(groups[0], Flatten(groups[1..]));
    }
  }

  /** Every order of a well-formed board's words is a pool of whole groups, four to a group. */
  lemma AnyOrderIsWholeGroups(p: Puzzle, words: seq<Word>)
    requires p.WellFormed() && multiset(words) == multiset(Flatten(p.groups))
    ensures WholeGroups(p, words) && |words| == GROUP_SIZE * |p.groups|
  {
    var board := Flatten(p.groups);
    forall i | 0 <= i < |p.groups| ensures Distinct(p.groups[i]) {
    }
    forall i, j, w | 0 <= i < j < |p.groups| && w in p.groups[i] ensures w !in p.groups[j] {
    }
    FlattenDistinct(p.groups);
    DistinctCounts(board);
    DistinctCounts(words);
    assert |words| == |multiset(words)| == |board|;
    forall w ensures w in words <==> p.OnBoard(w) {
      assert w in words <==> w in multiset(words);
      assert w in board <==> w in multiset(board);
    }
  }
}
