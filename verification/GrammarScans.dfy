/**
 How the scans of packages/answer-grammar/src/parse-answer.ts behave on text that is put
 together from pieces: where a group heading, a marker or a separator can and cannot be
 found. Blank space is skipped whole, a marker is found where it was put and nowhere
 before, a heading only at the start of a line, and a number is read to its last digit.
 */
module GrammarScans {
  import opened Options
  import opened AnswerGrammar

  // ----- trimming and splitting -----

  /** Non-empty, and no white space at either end. */
  predicate Tight(s: string) {
    s != "" && !IsSpace(s[0]) && !IsSpace(s[|s| - 1])
  }

  lemma TightTrim(s: string)
    requires Tight(s)
    ensures Trim(s) == s && Trim(" " + s) == s && Trim("\n" + s) == s
  {
    assert TrimEnd(s) == s && TrimStart(s) == s;
    assert (" " + s)[1..] == s && ("\n" + s)[1..] == s;
  }

  ghost predicate Lacks(s: string, chars: string) {
    forall i :: 0 <= i < |s| ==> s[i] !in chars
  }

  lemma {:induction false} StripNothing(s: string, chars: string)
    requires Lacks(s, chars)
    ensures Strip(s, chars) == s
  {
    if s != "" {
      StripNothing(s[1..], chars);
    }
  }

  lemma {:induction false} SplitNone(s: string, sep: char)
    requires sep !in s
    ensures SplitOn(s, sep) == [s]
  {
    if s != "" {
      SplitNone(s[1..], sep);
      assert [s[0]] + s[1..] == s;
    }
  }

  lemma {:induction false} SplitFirst(s: string, sep: char, rest: string)
    requires sep !in s
    ensures SplitOn(s + [sep] + rest, sep) == [s] + SplitOn(rest, sep)
  {
    var all := s + [sep] + rest;
    if s == "" {
      assert all[1..] == rest;
    } else {
      assert all[1..] == s[1..] + [sep] + rest;
      SplitFirst(s[1..], sep, rest);
      assert [s[0]] + s[1..] == s;
    }
  }

  lemma {:induction false} NothingToStrip(s: string, i: nat)
    requires i <= |s| && '(' !in s
    ensures StripParentheticals(s, i) == s[i..]
    decreases |s| - i
  {
    if i < |s| {
      NothingToStrip(s, i + 1);
    }
  }

  // ----- skipping -----

  lemma {:induction false} SkipShift(a: string, b: string, i: nat)
    requires i <= |b|
    ensures SkipSpaces(a + b, |a| + i) == |a| + SkipSpaces(b, i)
    decreases |b| - i
  {
    if i < |b| && IsSpace(b[i]) {
      SkipShift(a, b, i + 1);
    }
  }

  /** Skipping stops inside a, or at its end before something that is not white space. */
  lemma {:induction false} SkipInside(a: string, b: string, i: nat)
    requires i <= |a|
    requires SkipSpaces(a, i) < |a| || b == "" || !IsSpace(b[0])
    ensures SkipSpaces(a + b, i) == SkipSpaces(a, i)
    decreases |a| - i
  {
    if i < |a| && IsSpace(a[i]) {
      SkipInside(a, b, i + 1);
    }
  }

  lemma {:induction false} SkipAllSpace(a: string, b: string, i: nat)
    requires i <= |a| && (forall k :: 0 <= k < |b| ==> IsSpace(b[k]))
    ensures SkipSpaces(a + b, i) == if SkipSpaces(a, i) == |a| then |a| + |b| else SkipSpaces(a, i)
    decreases |a| - i
  {
    if i == |a| {
      SkipShift(a, b, 0);
      SkipToEnd(b, 0);
    } else if IsSpace(a[i]) {
      SkipAllSpace(a, b, i + 1);
    }
  }

  lemma {:induction false} SkipToEnd(b: string, i: nat)
    requires i <= |b| && forall k :: 0 <= k < |b| ==> IsSpace(b[k])
    ensures SkipSpaces(b, i) == |b|
    decreases |b| - i
  {
    if i < |b| {
      SkipToEnd(b, i + 1);
    }
  }

  lemma {:induction false} LineEndIs(text: string, i: nat, j: nat)
    requires i <= j <= |text| && (forall k :: i <= k < j ==> text[k] != '\n') && (j < |text| ==> text[j] == '\n')
    ensures LineEnd(text, i) == j
    decreases j - i
  {
    if i < j {
      LineEndIs(text, i + 1, j);
    }
  }

  // ----- markers -----

  ghost predicate NoLabel(s: string, marker: string) {
    forall i :: 0 <= i <= |s| ==> !LabelAt(s, i, marker)
  }

  lemma LabelShift(a: string, b: string, i: nat, marker: string)
    ensures LabelAt(a + b, |a| + i, marker) <==> LabelAt(b, i, marker)
  {
    if i + |marker| <= |b| {
      forall k | 0 <= k < |marker|
        ensures Lower((a + b)[|a| + i + k]) == marker[k] <==> Lower(b[i + k]) == marker[k]
      {
        assert (a + b)[|a| + i + k] == b[i + k];
      }
    }
  }

  lemma MarkerLetter(a: string, i: nat, k: nat, marker: string)
    requires LabelAt(a, i, marker) && k < |marker|
    ensures Lower(a[i + k]) in marker
  {
    assert Lower(a[i + k]) == marker[k];
  }

  /** A marker found in a, before a character that no marker letter matches, lies in a. */
  lemma LabelStays(a: string, b: string, i: nat, marker: string)
    requires i < |a| && b != "" && Lower(b[0]) !in marker && LabelAt(a + b, i, marker)
    ensures LabelAt(a, i, marker)
  {
    assert i + |marker| <= |a| by {
      if i + |marker| > |a| {
        MarkerLetter(a + b, i, |a| - i, marker);
      }
    }
    forall k | 0 <= k < |marker| ensures Lower(a[i + k]) == marker[k] {
      assert (a + b)[i + k] == a[i + k];
    }
  }

  lemma NoLabelConcat(a: string, b: string, marker: string)
    requires NoLabel(a, marker) && NoLabel(b, marker) && b != "" && Lower(b[0]) !in marker
    ensures NoLabel(a + b, marker)
  {
    forall i | 0 <= i <= |a + b| ensures !LabelAt(a + b, i, marker) {
      if i < |a| {
        if LabelAt(a + b, i, marker) {
          LabelStays(a, b, i, marker);
        }
      } else {
        LabelShift(a, b, i - |a|, marker);
      }
    }
  }

  /** Text with no character like the marker's first can come before anything. */
  lemma NoLabelPrefix(a: string, b: string, marker: string)
    requires marker != "" && NoLabel(b, marker) && forall k :: 0 <= k < |a| ==> Lower(a[k]) != marker[0]
    ensures NoLabel(a + b, marker)
  {
    forall i | 0 <= i <= |a + b| ensures !LabelAt(a + b, i, marker) {
      if i < |a| {
        assert (a + b)[i + 0] == a[i];
      } else {
        LabelShift(a, b, i - |a|, marker);
      }
    }
  }

  lemma {:induction false} FindLabelIs(text: string, i: nat, j: nat, marker: string)
    requires i <= j <= |text| && LabelAt(text, j, marker)
    requires forall k :: i <= k < j ==> !LabelAt(text, k, marker)
    ensures FindLabel(text, i, marker) == Some(j)
    decreases j - i
  {
    if i < j {
      FindLabelIs(text, i + 1, j, marker);
    }
  }

  lemma {:induction false} FieldSkips(text: string, i: nat, j: nat, marker: string)
    requires i <= j <= |text| && forall k :: i <= k < j ==> !LabelAt(text, k, marker)
    ensures Field(text, i, marker) == Field(text, j, marker)
    decreases j - i
  {
    if i < j {
      FieldSkips(text, i + 1, j, marker);
    }
  }

  lemma NoField(text: string, marker: string)
    requires NoLabel(text, marker)
    ensures Field(text, 0, marker) == None
  {
    FieldSkips(text, 0, |text|, marker);
  }

  lemma Regroup(a: string, b: string, c: string, d: string)
    ensures a + b + c + d == a + (b + c + d) && a + (b + c) == a + b + c
  {
  }

  lemma SliceShift(a: string, b: string, i: nat, j: nat)
    requires i <= j <= |b|
    ensures (a + b)[|a| + i..|a| + j] == b[i..j]
  {
  }

  lemma LabelExtends(a: string, b: string, i: nat, marker: string)
    requires LabelAt(a, i, marker)
    ensures LabelAt(a + b, i, marker)
  {
    forall k | 0 <= k < |marker| ensures Lower((a + b)[i + k]) == marker[k] {
      assert (a + b)[i + k] == a[i + k];
    }
  }

  /** The marker is at none of the positions of a, in a + b. */
  ghost predicate NoneBefore(a: string, b: string, marker: string) {
    forall k :: 0 <= k < |a| ==> !LabelAt(a + b, k, marker)
  }

  lemma NoneBeforePlain(a: string, b: string, marker: string)
    requires marker != "" && forall k :: 0 <= k < |a| ==> Lower(a[k]) != marker[0]
    ensures NoneBefore(a, b, marker)
  {
    forall k | 0 <= k < |a| ensures !LabelAt(a + b, k, marker) {
      assert (a + b)[k + 0] == a[k];
    }
  }

  lemma NoneBeforeWall(a: string, b: string, marker: string)
    requires NoLabel(a, marker) && b != "" && Lower(b[0]) !in marker
    ensures NoneBefore(a, b, marker)
  {
    forall k | 0 <= k < |a| ensures !LabelAt(a + b, k, marker) {
      if LabelAt(a + b, k, marker) {
        LabelStays(a, b, k, marker);
      }
    }
  }

  lemma NoneBeforeJoin(a: string, b: string, c: string, marker: string)
    requires NoneBefore(a, b + c, marker) && NoneBefore(b, c, marker)
    ensures NoneBefore(a + b, c, marker)
  {
    assert a + b + c == a + (b + c);
    forall k | 0 <= k < |a + b| ensures !LabelAt(a + b + c, k, marker) {
      if k >= |a| {
        LabelShift(a, b + c, k - |a|, marker);
      }
    }
  }

  lemma ValueEndsLine(text: string, n: nat, value: string)
    requires n + |value| < |text| && text[n..n + |value|] == value && text[n + |value|] == '\n' && '\n' !in value
    ensures LineEnd(text, n) == n + |value|
  {
    forall k | n <= k < n + |value| ensures text[k] != '\n' {
      assert text[k] == text[n..n + |value|][k - n];
    }
    LineEndIs(text, n, n + |value|);
  }

  /** A field at a known place: one blank after the marker, then the value, up to the end of its line. */
  lemma FieldIs(text: string, i: nat, marker: string, value: string)
    requires Tight(value) && '\n' !in value
    requires i + |marker| + 1 + |value| < |text| && LabelAt(text, i, marker)
    requires forall k :: 0 <= k < i ==> !LabelAt(text, k, marker)
    requires text[i + |marker|] == ' '
    requires var n := i + |marker| + 1; text[n..n + |value|] == value && text[n + |value|] == '\n'
    ensures Field(text, 0, marker) == Some(value)
  {
    var n := i + |marker| + 1;
    FieldSkips(text, 0, i, marker);
    ValueEndsLine(text, n, value);
    assert text[n] == text[n..n + |value|][0];
    assert SkipSpaces(text, n) == n;
    assert SkipSpaces(text, n - 1) == n;
  }

  /** A piece of text that is a marker, a blank, a value and a line feed, shown somewhere. */
  lemma ShownField(before: string, shown: string, value: string, rest: string, marker: string)
    requires |shown| == |marker| + 1 && shown[|marker|] == ' ' && LabelAt(shown, 0, marker)
    requires Tight(value) && '\n' !in value
    requires NoneBefore(before, shown + value + "\n" + rest, marker)
    ensures Field(before + (shown + value + "\n" + rest), 0, marker) == Some(value)
  {
    var piece := shown + value + "\n" + rest;
    var text, i, m := before + piece, |before|, |marker| + 1;
    Regroup(shown, value, "\n", rest);
    LabelExtends(shown, value + "\n" + rest, 0, marker);
    LabelShift(before, piece, 0, marker);
    assert piece[m - 1] == ' ' && piece[m + |value|] == '\n';
    assert piece[m..m + |value|] == value by {
      SliceShift(shown, value + "\n" + rest, 0, |value|);
    }
    SliceShift(before, piece, m, m + |value|);
    assert text[i + (m - 1)] == piece[m - 1] && text[i + (m + |value|)] == piece[m + |value|];
    FieldIs(text, i, marker, value);
  }

  // ----- answer markers -----

  /** Every number sign is followed by something else. */
  ghost predicate Unmarked(s: string) {
    forall k :: 0 <= k < |s| && s[k] == '#' ==> k + 1 < |s| && s[k + 1] != '#'
  }

  lemma UnmarkedConcat(a: string, b: string)
    requires Unmarked(a) && Unmarked(b)
    ensures Unmarked(a + b)
  {
  }

  lemma OneHashNoAnswer(text: string, i: nat)
    requires i <= |text| && (i + 1 < |text| && text[i] == '#' ==> text[i + 1] != '#')
    ensures AnswerAt(text, i).None?
  {
  }

  /** No marker with two number signs starts in such a text, whatever follows. */
  lemma NoneBeforeUnmarked(a: string, b: string, marker: string)
    requires Unmarked(a) && |marker| > 1 && marker[0] == '#' && marker[1] == '#'
    ensures NoneBefore(a, b, marker)
  {
    forall k | 0 <= k < |a| ensures !LabelAt(a + b, k, marker) {
      assert (a + b)[k + 0] == a[k];
      assert k + 1 < |a| ==> (a + b)[k + 1] == a[k + 1];
    }
  }

  lemma {:induction false} FindAnswerIs(text: string, i: nat, j: nat)
    requires i <= j <= |text| && AnswerAt(text, j).Some?
    requires forall k :: i <= k < j ==> AnswerAt(text, k).None?
    ensures FindAnswer(text, i) == Some(j)
    decreases j - i
  {
    if i < j {
      FindAnswerIs(text, i + 1, j);
    }
  }

  lemma {:induction false} FindAnswerNone(text: string, i: nat)
    requires i <= |text| && forall k :: i <= k <= |text| ==> AnswerAt(text, k).None?
    ensures FindAnswer(text, i).None?
    decreases |text| - i
  {
    if i < |text| {
      FindAnswerNone(text, i + 1);
    }
  }

  // ----- group headings -----

  ghost predicate NoGroup(s: string) {
    forall i :: 0 <= i < |s| ==> !GroupAt(s, i)
  }

  lemma GroupShift(a: string, b: string, i: nat)
    ensures GroupAt(a + b, |a| + i) <==> GroupAt(b, i)
  {
    LabelShift(a, b, i, "group");
    if LabelAt(b, i, "group") {
      SkipShift(a, b, i + 5);
      var j := SkipSpaces(b, i + 5);
      assert j < |b| ==> (a + b)[|a| + j] == b[j];
    }
  }

  /** What a heading can run into without becoming one: not a blank, not a digit, not a letter of "group". */
  predicate Wall(a: string, b: string) {
    b == "" || (!IsSpace(b[0]) && !IsDigit(b[0])
                && (Lower(b[0]) !in "group" || (a != "" && IsSpace(a[|a| - 1]))))
  }

  lemma GroupLetters(a: string, i: nat, k: nat)
    requires LabelAt(a, i, "group") && k < 5
    ensures !IsSpace(a[i + k]) && Lower(a[i + k]) in "group"
  {
    assert Lower(a[i + k]) == "group"[k];
  }

  lemma GroupStays(a: string, b: string, i: nat)
    requires i < |a| && Wall(a, b) && GroupAt(a + b, i)
    ensures GroupAt(a, i)
  {
    if b == "" {
      assert a + b == a;
    } else {
      LabelFits(a, b, i);
      SkipInside(a, b, i + 5);
      var j := SkipSpaces(a, i + 5);
      assert (a + b)[|a|] == b[0];
      assert j < |a| ==> (a + b)[j] == a[j];
    }
  }

  /** The word "group" does not run over the end of a. */
  lemma LabelFits(a: string, b: string, i: nat)
    requires i < |a| && b != "" && LabelAt(a + b, i, "group")
    requires Lower(b[0]) !in "group" || IsSpace(a[|a| - 1])
    ensures LabelAt(a, i, "group")
  {
    var t := a + b;
    assert t[|a|] == b[0] && t[|a| - 1] == a[|a| - 1];
    assert i + 5 <= |a| by {
      if i + 5 > |a| {
        GroupLetters(t, i, |a| - i);
        GroupLetters(t, i, |a| - 1 - i);
      }
    }
    forall k | 0 <= k < 5 ensures Lower(a[i + k]) == "group"[k] {
      assert a[i + k] == t[i + k];
    }
  }

  /** Trailing white space makes no heading. */
  lemma GroupBeforeSpace(a: string, b: string, i: nat)
    requires i < |a| && (forall k :: 0 <= k < |b| ==> IsSpace(b[k])) && GroupAt(a + b, i)
    ensures GroupAt(a, i)
  {
    if b == "" {
      assert a + b == a;
    } else {
      LabelFits(a, b, i);
      SkipAllSpace(a, b, i + 5);
      var j := SkipSpaces(a, i + 5);
      assert j < |a| ==> (a + b)[j] == a[j];
    }
  }

  lemma NoGroupConcat(a: string, b: string)
    requires NoGroup(a) && NoGroup(b) && Wall(a, b)
    ensures NoGroup(a + b)
  {
    forall i | 0 <= i < |a + b| ensures !GroupAt(a + b, i) {
      if i >= |a| {
        GroupShift(a, b, i - |a|);
      } else if GroupAt(a + b, i) {
        GroupStays(a, b, i);
      }
    }
  }

  lemma NoGroupSpace(a: string, b: string)
    requires NoGroup(a) && forall k :: 0 <= k < |b| ==> IsSpace(b[k])
    ensures NoGroup(a + b)
  {
    forall i | 0 <= i < |a + b| ensures !GroupAt(a + b, i) {
      if i >= |a| {
        GroupShift(a, b, i - |a|);
        assert "group"[0] == 'g' && b[i - |a| + 0] == b[i - |a|];
      } else if GroupAt(a + b, i) {
        GroupBeforeSpace(a, b, i);
      }
    }
  }

  /** Text without a g can come before anything. */
  lemma NoGroupPrefix(a: string, b: string)
    requires NoGroup(b) && forall k :: 0 <= k < |a| ==> Lower(a[k]) != 'g'
    ensures NoGroup(a + b)
  {
    forall i | 0 <= i < |a + b| ensures !GroupAt(a + b, i) {
      if i >= |a| {
        GroupShift(a, b, i - |a|);
      } else {
        assert (a + b)[i + 0] == a[i] && "group"[0] == 'g';
      }
    }
  }

  lemma {:induction false} FindGroupIs(text: string, i: nat, j: nat)
    requires i <= j < |text| && GroupAt(text, j) && forall k :: i <= k < j ==> !GroupAt(text, k)
    ensures FindGroup(text, i) == Some(j)
    decreases j - i
  {
    if i < j {
      FindGroupIs(text, i + 1, j);
    }
  }

  lemma {:induction false} FindGroupNone(text: string, i: nat)
    requires i <= |text| && forall k :: i <= k < |text| ==> !GroupAt(text, k)
    ensures FindGroup(text, i).None?
    decreases |text| - i
  {
    if i < |text| {
      FindGroupNone(text, i + 1);
    }
  }

  // ----- numbers -----

  ghost predicate Digits(s: string) {
    forall i :: 0 <= i < |s| ==> IsDigit(s[i])
  }

  lemma {:induction false} DecimalIs(n: nat)
    ensures Digits(Decimal(n)) && Decimal(n) != "" && Number(Decimal(n)) == n
  {
    if n >= 10 {
      DecimalIs(n / 10);
      var front := Decimal(n / 10);
      assert Decimal(n)[..|Decimal(n)| - 1] == front;
    }
  }

  lemma {:induction false} SkipDigitsIs(text: string, i: nat, j: nat)
    requires i <= j <= |text| && (forall k :: i <= k < j ==> IsDigit(text[k])) && (j < |text| ==> !IsDigit(text[j]))
    ensures SkipDigits(text, i) == j
    decreases j - i
  {
    if i < j {
      SkipDigitsIs(text, i + 1, j);
    }
  }
}
