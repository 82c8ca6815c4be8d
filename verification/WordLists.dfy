/**
 Sorting lists of words to compare them: groupKey in
 deterministic-solver.service.ts and findCaseInsensitiveGroupMatch in
 case-insensitive-match.ts.
 */
module WordLists {
  import opened Options
  import opened Puzzles

  /** Lexicographic order on words. */
  predicate Leq(a: Word, b: Word) {
    a == "" || (b != "" && (a[0] < b[0] || (a[0] == b[0] && Leq(a[1..], b[1..]))))
  }

  lemma {:induction false} LeqTotal(a: Word, b: Word)
    ensures Leq(a, b) || Leq(b, a)
  {
    if a != "" && b != "" {
      LeqTotal(a[1..], b[1..]);
    }
  }

  lemma {:induction false} LeqAntisymmetric(a: Word, b: Word)
    requires Leq(a, b) && Leq(b, a)
    ensures a == b
  {
    if a != "" && b != "" {
      LeqAntisymmetric(a[1..], b[1..]);
      assert a == [a[0]] + a[1..] && b == [b[0]] + b[1..];
    }
  }

  lemma {:induction false} LeqTransitive(a: Word, b: Word, c: Word)
    requires Leq(a, b) && Leq(b, c)
    ensures Leq(a, c)
  {
    if a != "" && b != "" && c != "" && a[0] == b[0] == c[0] {
      LeqTransitive(a[1..], b[1..], c[1..]);
    }
  }

  function Insert(w: Word, s: seq<Word>): (r: seq<Word>)
    ensures multiset(r) == multiset(s) + multiset{w}
  {
    if s == [] || Leq(w, s[0]) then [w] + s
    else
      assert s == [s[0]] + s[1..];
      [s[0]] + Insert(w, s[1..])
  }

  /** `[...words].sort()`. */
  function Sort(words: seq<Word>): (r: seq<Word>)
    ensures multiset(r) == multiset(words) && |r| == |words|
  {
    if words == [] then []
    else
      assert words == [words[0]] + words[1..];
      var r := Insert(words[0], Sort(words[1..]));
      assert |r| == |multiset(r)| && |words| == |multiset(words)|;
      r
  }

  /** Each word is at or before every later one. */
  ghost predicate Sorted(s: seq<Word>) {
    s == [] || ((forall w :: w in s[1..] ==> Leq(s[0], w)) && Sorted(s[1..]))
  }

  lemma {:induction false} InsertSorted(w: Word, s: seq<Word>)
    requires Sorted(s)
    ensures Sorted(Insert(w, s))
  {
    if s == [] {
    } else if Leq(w, s[0]) {
      forall v | v in s ensures Leq(w, v) {
        if v != s[0] {
          assert v in s[1..];
          LeqTransitive(w, s[0], v);
        }
      }
    } else {
      InsertSorted(w, s[1..]);
      LeqTotal(w, s[0]);
      forall v | v in Insert(w, s[1..]) ensures Leq(s[0], v) {
        assert v in multiset(Insert(w, s[1..]));
      }
    }
  }

  lemma {:induction false} SortSorted(words: seq<Word>)
    ensures Sorted(Sort(words))
  {
    if words != [] {
      SortSorted(words[1..]);
      InsertSorted(words[0], Sort(words[1..]));
    }
  }

  lemma {:induction false} SortedUnique(a: seq<Word>, b: seq<Word>)
    requires Sorted(a) && Sorted(b) && multiset(a) == multiset(b)
    ensures a == b
  {
    if a == [] {
      assert |multiset(b)| == 0;
    } else {
      assert a[0] in multiset(b);
      assert b != [] && b[0] in multiset(a);
      assert a[0] in b && b[0] in a;
      if a[0] != b[0] {
        assert a[0] in b[1..] && b[0] in a[1..];
        LeqAntisymmetric(a[0], b[0]);
      }
      assert a == [a[0]] + a[1..] && b == [b[0]] + b[1..];
      assert multiset(a[1..]) == multiset(a) - multiset{a[0]};
      assert multiset(b[1..]) == multiset(b) - multiset{b[0]};
      SortedUnique(a[1..], b[1..]);
    }
  }

  /** Comparing sorted copies is comparing multisets. */
  lemma SortEqual(a: seq<Word>, b: seq<Word>)
    ensures Sort(a) == Sort(b) <==> multiset(a) == multiset(b)
  {
    SortSorted(a);
    SortSorted(b);
    if multiset(a) == multiset(b) {
      SortedUnique(Sort(a), Sort(b));
    }
  }

  // ----- group keys -----

  function Join(words: seq<Word>): string {
    if words == [] then ""
    else if |words| == 1 then words[0]
    else words[0] + "|" + Join(words[1..])
  }

  function GroupKey(words: seq<Word>): string {
    Join(Sort(words))
  }

  ghost predicate NoBars(words: seq<Word>) {
    forall w :: w in words ==> '|' !in w
  }

  lemma FirstBar(w: Word, v: Word, s: string, t: string)
    requires '|' !in w && '|' !in v
    requires w + "|" + s == v + "|" + t
    ensures w == v && s == t
  {
    var x, y := w + "|" + s, v + "|" + t;
    assert x[|w|] == '|' && y[|v|] == '|';
    assert |w| == |v|;
    assert w == x[..|w|] && v == y[..|v|];
    assert s == x[|w| + 1..] && t == y[|v| + 1..];
  }

  lemma {:induction false} JoinInjective(a: seq<Word>, b: seq<Word>)
    requires NoBars(a) && NoBars(b) && |a| == |b| && Join(a) == Join(b)
    ensures a == b
  {
    if |a| > 1 {
      FirstBar(a[0], b[0], Join(a[1..]), Join(b[1..]));
      JoinInjective(a[1..], b[1..]);
      assert a == [a[0]] + a[1..] && b == [b[0]] + b[1..];
    }
  }

  /** The key names the group: equal keys exactly for the same words in some order. */
  lemma GroupKeyIdentifies(a: seq<Word>, b: seq<Word>)
    requires NoBars(a) && NoBars(b) && |a| == |b|
    ensures GroupKey(a) == GroupKey(b) <==> multiset(a) == multiset(b)
  {
    SortEqual(a, b);
    forall w | w in Sort(a) ensures '|' !in w {
      assert w in multiset(Sort(a)) && w in multiset(a);
    }
    forall w | w in Sort(b) ensures '|' !in w {
      assert w in multiset(Sort(b)) && w in multiset(b);
    }
    if GroupKey(a) == GroupKey(b) {
      JoinInjective(Sort(a), Sort(b));
    }
  }

  // ----- case-insensitive matching -----

  function Trims(p: Puzzle, words: seq<Word>): seq<Word> {
    seq(|words|, a requires 0 <= a < |words| => p.trim(words[a]))
  }

  predicate CaseMismatch(p: Puzzle, guess: seq<Word>, group: seq<Word>) {
    && |group| == |guess|
    && Sort(Norms(p, guess)) == Sort(Norms(p, group))
    && Sort(Trims(p, guess)) != Sort(group)
  }

  function MatchFrom(p: Puzzle, guess: seq<Word>, i: nat): (r: Option<seq<Word>>)
    requires i <= |p.groups|
    ensures r.Some? ==> r.value in p.groups
    decreases |p.groups| - i
  {
    if i == |p.groups| then None
    else if CaseMismatch(p, guess, p.groups[i]) then Some(p.groups[i])
    else MatchFrom(p, guess, i + 1)
  }

  method FindCaseInsensitiveGroupMatch(p: Puzzle, guess: seq<Word>) returns (r: Option<seq<Word>>)
    ensures r == MatchFrom(p, guess, 0)
  {
    var sortedLowerGuess := Sort(Norms(p, guess));
    var sortedTrimmedGuess := Sort(Trims(p, guess));
    for i := 0 to |p.groups|
      invariant MatchFrom(p, guess, 0) == MatchFrom(p, guess, i)
    {
      var group := p.groups[i];
      if |group| != |guess| {
        continue;
      }
      if sortedLowerGuess != Sort(Norms(p, group)) {
        continue;
      }
      if sortedTrimmedGuess == Sort(group) {
        continue;
      }
      return Some(group);
    }
    return None;
  }

  /** The guess is group g up to case and order, without being g itself once trimmed. */
  ghost predicate DiffersInCase(p: Puzzle, guess: seq<Word>, g: seq<Word>) {
    && |g| == |guess| && multiset(Norms(p, g)) == multiset(Norms(p, guess))
    && multiset(g) != multiset(Trims(p, guess))
  }

  lemma CaseMismatchMeans(p: Puzzle, guess: seq<Word>, g: seq<Word>)
    ensures CaseMismatch(p, guess, g) <==> DiffersInCase(p, guess, g)
  {
    SortEqual(Norms(p, guess), Norms(p, g));
    SortEqual(Trims(p, guess), g);
  }

  /** The search finds the first group that differs from the guess only in case and order. */
  lemma {:induction false} MatchMeans(p: Puzzle, guess: seq<Word>, i: nat)
    requires i <= |p.groups|
    ensures MatchFrom(p, guess, i).None? <==>
              forall k :: i <= k < |p.groups| ==> !DiffersInCase(p, guess, p.groups[k])
    ensures MatchFrom(p, guess, i).Some? ==>
              exists k :: && i <= k < |p.groups| && MatchFrom(p, guess, i).value == p.groups[k]
                          && DiffersInCase(p, guess, p.groups[k])
                          && forall m :: i <= m < k ==> !DiffersInCase(p, guess, p.groups[m])
    decreases |p.groups| - i
  {
    if i < |p.groups| {
      CaseMismatchMeans(p, guess, p.groups[i]);
      if !CaseMismatch(p, guess, p.groups[i]) {
        MatchMeans(p, guess, i + 1);
      }
    }
  }
}
