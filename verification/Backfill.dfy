/**
 reconstructPromptTexts (backend/src/scripts/backfill-prompt-text.ts): rebuilding
 every stored transcript of a run from its rows alone, and when that agrees with
 what the runner stored.
 */
module Backfill {
  import opened Options
  import opened Puzzles
  import opened LlmLoop
  import opened LlmHistory
  import opened RunLog
  import opened TokenBound

  function StepsIn(rows: seq<PromptRow>): seq<GuessRow> {
    if rows == [] then [] else StepsIn(rows[..|rows| - 1]) + UsedSteps(rows[|rows| - 1])
  }

  /** The prompt the replay builds for a row, from the rows before it. */
  function PromptFor(build: Prompts, words: seq<Word>, before: seq<PromptRow>, row: PromptRow): string {
    var steps := StepsIn(before);
    var m := Recall(NOTHING, steps);
    if row.promptType == Retry && m.lastFailedGuess.Some?
    then build.retry(Board(words, steps), m.lockedInGroups, m.lastFailedGuess.value)
    else build.initial(Board(words, steps))
  }

  /** The conversation after some rows, when row i was answered with replies[i]. */
  function Conversation(build: Prompts, words: seq<Word>, rows: seq<PromptRow>, replies: seq<string>): seq<Message>
    requires |replies| == |rows|
    decreases |rows|
  {
    if rows == [] then []
    else
      var n := |rows| - 1;
      var before := Conversation(build, words, rows[..n], replies[..n]);
      if rows[n].status == CallErrorStatus then before
      else before + [Message(User, PromptFor(build, words, rows[..n], rows[n])), Message(Assistant, replies[n])]
  }

  function Raw(row: PromptRow): string {
    if row.rawResponseText.Some? then row.rawResponseText.value else ""
  }

  function Raws(rows: seq<PromptRow>): seq<string> {
    seq(|rows|, i requires 0 <= i < |rows| => Raw(rows[i]))
  }

  /** The transcript of row i when earlier rows were answered with `replies`. */
  function TextAt(build: Prompts, words: seq<Word>, rows: seq<PromptRow>, replies: seq<string>, i: nat): string
    requires i < |rows| == |replies|
  {
    Format(Conversation(build, words, rows[..i], replies[..i])
           + [Message(User, PromptFor(build, words, rows[..i], rows[i]))])
  }

  /** The transcripts of the first n rows. */
  function Texts(build: Prompts, words: seq<Word>, rows: seq<PromptRow>, replies: seq<string>, n: nat): (r: seq<string>)
    requires n <= |rows| == |replies|
    ensures |r| == n
    decreases n
  {
    if n == 0 then []
    else Texts(build, words, rows, replies, n - 1) + [TextAt(build, words, rows, replies, n - 1)]
  }

  lemma {:induction false} TextsAt(build: Prompts, words: seq<Word>, rows: seq<PromptRow>, replies: seq<string>, n: nat,
                                   i: nat)
    requires i < n <= |rows| == |replies|
    ensures Texts(build, words, rows, replies, n)[i] == TextAt(build, words, rows, replies, i)
    decreases n
  {
    if i < n - 1 {
      TextsAt(build, words, rows, replies, n - 1, i);
    }
  }

  /** Every row's transcript, from the rows alone. */
  method ReconstructPromptTexts(build: Prompts, originalWords: seq<Word>, solvePrompts: seq<PromptRow>)
    returns (texts: seq<string>)
    ensures var rows := OrderPrompts(solvePrompts);
            texts == Texts(build, originalWords, rows, Raws(rows), |rows|)
  {
    var rows := OrderPrompts(solvePrompts);
    var availableWords := originalWords;
    var lockedInGroups: seq<seq<Word>> := [];
    var lastFailedGuess: Option<FailedGuess> := None;
    var history: seq<Message> := [];
    texts := [];
    for i := 0 to |rows|
      invariant texts == Texts(build, originalWords, rows, Raws(rows), i)
      invariant availableWords == Board(originalWords, StepsIn(rows[..i]))
      invariant lockedInGroups == Recall(NOTHING, StepsIn(rows[..i])).lockedInGroups
      invariant lastFailedGuess == Recall(NOTHING, StepsIn(rows[..i])).lastFailedGuess
      invariant history == Conversation(build, originalWords, rows[..i], Raws(rows)[..i])
    {
      var prompt := rows[i];
      var currentPrompt := if prompt.promptType == Retry && lastFailedGuess.Some?
      then build.retry(availableWords, lockedInGroups, lastFailedGuess.value)
      else build.initial(availableWords);
      texts := texts + [Format(history + [Message(User, currentPrompt)])];
      ConversationNext(build, originalWords, rows, Raws(rows), i);
      if prompt.status != CallErrorStatus {
        history := history + [Message(User, currentPrompt), Message(Assistant, Raw(prompt))];
      }
      StepsNext(originalWords, rows, i);
      availableWords, lockedInGroups, lastFailedGuess :=
        AdvanceState(availableWords, lockedInGroups, lastFailedGuess, UsedSteps(prompt));
      AdvanceIsRecall(Recall(NOTHING, StepsIn(rows[..i])), UsedSteps(prompt));
    }
  }

  function StepsLocked(locked: seq<seq<Word>>, steps: seq<GuessRow>): seq<seq<Word>>
    decreases |steps|
  {
    if steps == [] then locked
    else StepsLocked(if steps[0].result == Success then locked + [steps[0].words] else locked, steps[1..])
  }

  method AdvanceState(available: seq<Word>, locked: seq<seq<Word>>, last: Option<FailedGuess>, steps: seq<GuessRow>)
    returns (availableWords: seq<Word>, lockedInGroups: seq<seq<Word>>, lastFailedGuess: Option<FailedGuess>)
    ensures availableWords == Board(available, steps)
    ensures lockedInGroups == StepsLocked(locked, steps)
    ensures lastFailedGuess == StepsLast(last, steps)
  {
    availableWords, lockedInGroups, lastFailedGuess := available, locked, last;
    for k := 0 to |steps|
      invariant Board(available, steps) == Board(availableWords, steps[k..])
      invariant StepsLocked(locked, steps) == StepsLocked(lockedInGroups, steps[k..])
      invariant StepsLast(last, steps) == StepsLast(lastFailedGuess, steps[k..])
    {
      var step := steps[k];
      assert steps[k..][1..] == steps[k + 1..];
      if step.result == Success {
        availableWords := Without(availableWords, step.words);
        lockedInGroups := lockedInGroups + [step.words];
        lastFailedGuess := None;
      } else {
        var resultStr := if step.result == OffByOne then "one away" else "incorrect";
        lastFailedGuess := Some(FailedGuess(step.words, resultStr));
      }
    }
    assert steps[|steps|..] == [];
  }

  lemma {:induction false} AdvanceIsRecall(m: Memory, steps: seq<GuessRow>)
    ensures StepsLocked(m.lockedInGroups, steps) == Recall(m, steps).lockedInGroups
    ensures StepsLast(m.lastFailedGuess, steps) == Recall(m, steps).lastFailedGuess
    decreases |steps|
  {
    if steps != [] {
      AdvanceIsRecall(RecallOne(m, steps[0]), steps[1..]);
    }
  }

  lemma StepsNext(words: seq<Word>, rows: seq<PromptRow>, i: nat)
    requires i < |rows|
    ensures Board(words, StepsIn(rows[..i + 1])) == Board(Board(words, StepsIn(rows[..i])), UsedSteps(rows[i]))
    ensures Recall(NOTHING, StepsIn(rows[..i + 1])) == Recall(Recall(NOTHING, StepsIn(rows[..i])), UsedSteps(rows[i]))
  {
    assert rows[..i + 1][..i] == rows[..i];
    BoardAppend(words, StepsIn(rows[..i]), UsedSteps(rows[i]));
    RecallAppend(NOTHING, StepsIn(rows[..i]), UsedSteps(rows[i]));
  }

  lemma ConversationNext(build: Prompts, words: seq<Word>, rows: seq<PromptRow>, replies: seq<string>, i: nat)
    requires i < |rows| == |replies|
    ensures Conversation(build, words, rows[..i + 1], replies[..i + 1])
            == Conversation(build, words, rows[..i], replies[..i])
               + if rows[i].status == CallErrorStatus then []
                 else [Message(User, PromptFor(build, words, rows[..i], rows[i])), Message(Assistant, replies[i])]
  {
    assert rows[..i + 1][..i] == rows[..i] && replies[..i + 1][..i] == replies[..i];
  }

  // ----- when the reconstruction is right -----

  ghost predicate SameReplies(rows: seq<PromptRow>, a: seq<string>, b: seq<string>, upTo: int)
    requires |a| == |b| == |rows|
  {
    forall i :: 0 <= i < upTo && i < |rows| && rows[i].status != CallErrorStatus ==> a[i] == b[i]
  }

  lemma {:induction false} SameConversation(build: Prompts, words: seq<Word>, rows: seq<PromptRow>, a: seq<string>,
                                            b: seq<string>, n: nat)
    requires |a| == |b| == |rows| && n <= |rows| && SameReplies(rows, a, b, n)
    ensures Conversation(build, words, rows[..n], a[..n]) == Conversation(build, words, rows[..n], b[..n])
  {
    if n > 0 {
      SameConversation(build, words, rows, a, b, n - 1);
      ConversationNext(build, words, rows, a, n - 1);
      ConversationNext(build, words, rows, b, n - 1);
    }
  }

  lemma CancelBoth(x: string, e: string, f: string, y: string)
    requires x + e + y == x + f + y
    ensures e == f
  {
    assert |e| == |f|;
    assert e == (x + e + y)[|x|..|x| + |e|];
    assert f == (x + f + y)[|x|..|x| + |f|];
  }

  /** A turn's text tells who spoke, and what was said. */
  lemma TurnsApart(a: Message, b: Message)
    requires Turn(a) == Turn(b)
    ensures a == b
  {
    var x, y := Turn(a), Turn(b);
    assert a.role == User ==> x[1] == 'U' && x[7..] == a.content;
    assert a.role == Assistant ==> x[1] == 'A' && x[12..] == a.content;
    assert b.role == User ==> y[1] == 'U' && y[7..] == b.content;
    assert b.role == Assistant ==> y[1] == 'A' && y[12..] == b.content;
  }

  /** Two transcripts that differ only in one reply, before one more prompt, are different texts. */
  lemma ReplyShows(before: seq<Message>, prompt: string, e: string, f: string, next: string)
    requires Format(before + [Message(User, prompt), Message(Assistant, e)] + [Message(User, next)])
             == Format(before + [Message(User, prompt), Message(Assistant, f)] + [Message(User, next)])
    ensures e == f
  {
    FormatWith(before, prompt, e, next);
    FormatWith(before, prompt, f, next);
    CancelBoth(Format(before + [Message(User, prompt)]) + "\n\n" + "[Assistant]\n", e, f,
               "\n\n" + Turn(Message(User, next)));
  }

  lemma FormatWith(before: seq<Message>, prompt: string, e: string, next: string)
    ensures Format(before + [Message(User, prompt), Message(Assistant, e)] + [Message(User, next)])
            == (Format(before + [Message(User, prompt)]) + "\n\n" + "[Assistant]\n") + e
               + ("\n\n" + Turn(Message(User, next)))
  {
    var asked := before + [Message(User, prompt)];
    var answered := before + [Message(User, prompt), Message(Assistant, e)];
    var all := answered + [Message(User, next)];
    assert all[..|all| - 1] == answered && answered[..|answered| - 1] == asked;
    var reply := Turn(Message(Assistant, e));
    assert reply == "[Assistant]\n" + e;
    var last := "\n\n" + Turn(Message(User, next));
    assert Format(answered) == Format(asked) + "\n\n" + reply;
    assert Format(all) == Format(answered) + "\n\n" + Turn(Message(User, next)) == Format(answered) + last;
    assert Format(asked) + "\n\n" + reply == (Format(asked) + "\n\n" + "[Assistant]\n") + e;
  }

  /**
   Transcripts built from two lists of replies agree on every row exactly when the
   replies agree on every answered row before the last.
   */
  lemma TextsAgree(build: Prompts, words: seq<Word>, rows: seq<PromptRow>, a: seq<string>, b: seq<string>)
    requires |a| == |b| == |rows|
    ensures (forall i: nat :: i < |rows| ==> TextAt(build, words, rows, a, i) == TextAt(build, words, rows, b, i))
            <==> SameReplies(rows, a, b, |rows| - 1)
  {
    if SameReplies(rows, a, b, |rows| - 1) {
      forall i: nat | i < |rows| ensures TextAt(build, words, rows, a, i) == TextAt(build, words, rows, b, i) {
        SameConversation(build, words, rows, a, b, i);
      }
    } else {
      var i := FirstDifference(rows, a, b, |rows| - 1);
      SameConversation(build, words, rows, a, b, i);
      ConversationNext(build, words, rows, a, i);
      ConversationNext(build, words, rows, b, i);
      if TextAt(build, words, rows, a, i + 1) == TextAt(build, words, rows, b, i + 1) {
        ReplyShows(Conversation(build, words, rows[..i], a[..i]), PromptFor(build, words, rows[..i], rows[i]),
                   a[i], b[i], PromptFor(build, words, rows[..i + 1], rows[i + 1]));
      }
    }
  }

  lemma {:induction false} FirstDifference(rows: seq<PromptRow>, a: seq<string>, b: seq<string>, n: int)
    returns (i: nat)
    requires |a| == |b| == |rows| && n <= |rows| && !SameReplies(rows, a, b, n)
    ensures i < n && i < |rows| && rows[i].status != CallErrorStatus && a[i] != b[i] && SameReplies(rows, a, b, i)
    decreases n
  {
    if SameReplies(rows, a, b, n - 1) {
      i := n - 1;
    } else {
      i := FirstDifference(rows, a, b, n - 1);
    }
  }

  // ----- one uninterrupted invocation -----

  datatype OneCall = OneCall(o: Outcome, captured: bool)

  /** The run a single worker makes of some calls: one start, then nothing but calls. */
  function Invocation(p: Puzzle, lim: Limits, build: Prompts, words: seq<Word>, calls: seq<OneCall>): World
    decreases |calls|
  {
    if calls == [] then React(p, lim, build, NewRun(words), Start)
    else React(p, lim, build, Invocation(p, lim, build, words, calls[..|calls| - 1]),
               Call(calls[|calls| - 1].o, calls[|calls| - 1].captured))
  }

  function EchoOf(c: OneCall): string {
    if c.o.Reply? then Echo(c.o) else ""
  }

  function Echoes(calls: seq<OneCall>, n: nat): seq<string>
    requires n <= |calls|
  {
    seq(n, i requires 0 <= i < n => EchoOf(calls[i]))
  }

  ghost predicate RowOf(row: PromptRow, c: OneCall) {
    && (row.status == CallErrorStatus <==> c.o.CallError?)
    && (c.o.Reply? ==> row.rawResponseText == Some(c.o.response))
  }

  /** Row i comes from call i, and stores the transcript of what was really echoed before it. */
  ghost predicate Recorded(build: Prompts, words: seq<Word>, calls: seq<OneCall>, rows: seq<PromptRow>) {
    && |rows| <= |calls|
    && (forall i :: 0 <= i < |rows| ==> RowOf(rows[i], calls[i]))
    && StoredAs(build, words, rows, Echoes(calls, |rows|))
  }

  /** Every row stores the transcript of the replies before it. */
  ghost predicate StoredAs(build: Prompts, words: seq<Word>, rows: seq<PromptRow>, replies: seq<string>)
    requires |replies| == |rows|
  {
    forall i: nat {:trigger TextAt(build, words, rows, replies, i)} ::
      i < |rows| ==> rows[i].promptText == TextAt(build, words, rows, replies, i)
  }

  /** A worker still running has logged every call, and its messages are what was echoed so far. */
  ghost predicate InStep(build: Prompts, words: seq<Word>, calls: seq<OneCall>, w: World) {
    w.live.Some? ==>
      && |w.rows.prompts| == |calls|
      && w.live.value.messages == Conversation(build, words, w.rows.prompts, Echoes(calls, |calls|))
  }

  lemma {:induction false} StepsAreUsed(prompts: seq<PromptRow>)
    requires WellLogged(prompts)
    ensures StepsIn(prompts) == UsedIn(prompts)
  {
    if prompts != [] {
      var front, row := prompts[..|prompts| - 1], prompts[|prompts| - 1];
      StepsAreUsed(front);
      NumberedStays(Used(row.proposals), |UsedIn(front)|);
    }
  }

  lemma TextOfPrefix(build: Prompts, words: seq<Word>, rows: seq<PromptRow>, more: seq<PromptRow>,
                     a: seq<string>, b: seq<string>, i: nat)
    requires i < |rows| == |a| && a <= b && rows <= more && |b| == |more|
    ensures TextAt(build, words, rows, a, i) == TextAt(build, words, more, b, i)
  {
    assert rows[..i] == more[..i] && a[..i] == b[..i];
  }

  /** The live worker's next prompt is the one the replay builds for the row it logs. */
  lemma PromptMatches(build: Prompts, words: seq<Word>, rows: Rows, live: Live, row: PromptRow)
    requires WellLogged(rows.prompts) && rows.guesses == UsedIn(rows.prompts)
    requires rows.availableWords == Board(words, rows.guesses) && LiveAgrees(rows, live)
    requires row.promptType == TypeFor(live.loop.lastFailedGuess)
    ensures BuildPrompt(build, live.loop.availableWords, live.loop.lockedInGroups, live.loop.lastFailedGuess)
            == PromptFor(build, words, rows.prompts, row)
  {
    StepsAreUsed(rows.prompts);
  }

  lemma RecordRow(build: Prompts, words: seq<Word>, calls: seq<OneCall>, c: OneCall,
                  rows: seq<PromptRow>, row: PromptRow)
    requires |rows| == |calls| && Recorded(build, words, calls, rows) && RowOf(row, c)
    requires row.promptText == Format(Conversation(build, words, rows, Echoes(calls, |calls|))
                                      + [Message(User, PromptFor(build, words, rows, row))])
    ensures Recorded(build, words, calls + [c], rows + [row])
  {
    var n, all, more := |rows|, calls + [c], rows + [row];
    var e, f := Echoes(calls, n), Echoes(all, n + 1);
    assert f == e + [EchoOf(c)];
    assert more[..n] == rows && f[..n] == e;
    forall i: nat {:trigger TextAt(build, words, more, f, i)} | i < |more|
      ensures more[i].promptText == TextAt(build, words, more, f, i)
    {
      if i < n {
        TextOfPrefix(build, words, rows, more, e, f, i);
      }
    }
    forall i | 0 <= i < |more| ensures RowOf(more[i], all[i]) {
    }
  }

  lemma EchoNext(build: Prompts, words: seq<Word>, calls: seq<OneCall>, c: OneCall,
                  rows: seq<PromptRow>, row: PromptRow)
    requires |rows| == |calls| && RowOf(row, c)
    ensures Conversation(build, words, rows + [row], Echoes(calls + [c], |calls| + 1))
            == Conversation(build, words, rows, Echoes(calls, |calls|))
               + if c.o.CallError? then []
                 else [Message(User, PromptFor(build, words, rows, row)), Message(Assistant, EchoOf(c))]
  {
    var n, all, more := |rows|, calls + [c], rows + [row];
    var e, f := Echoes(calls, n), Echoes(all, n + 1);
    assert f == e + [EchoOf(c)];
    assert more[..n] == rows && f[..n] == e && more[..n + 1] == more && f[..n + 1] == f;
    ConversationNext(build, words, more, f, n);
  }

  lemma RecordLonger(build: Prompts, words: seq<Word>, calls: seq<OneCall>, c: OneCall, rows: seq<PromptRow>)
    requires Recorded(build, words, calls, rows)
    ensures Recorded(build, words, calls + [c], rows)
  {
    assert Echoes(calls + [c], |rows|) == Echoes(calls, |rows|);
    forall i | 0 <= i < |rows| ensures RowOf(rows[i], (calls + [c])[i]) {
    }
  }

  /** One call of the live worker: its row stores what was echoed so far, and its messages go on from there. */
  lemma LiveCall(p: Puzzle, lim: Limits, build: Prompts, words: seq<Word>, calls: seq<OneCall>, rows: Rows, live: Live,
                 c: OneCall) returns (row: PromptRow, next: Live)
    requires |rows.prompts| == |calls| && Recorded(build, words, calls, rows.prompts)
    requires live.messages == Conversation(build, words, rows.prompts, Echoes(calls, |calls|))
    requires BuildPrompt(build, live.loop.availableWords, live.loop.lockedInGroups, live.loop.lastFailedGuess)
             == PromptFor(build, words, rows.prompts, CallRow(p, lim, build, live, c.o, c.captured))
    ensures row == CallRow(p, lim, build, live, c.o, c.captured) && next == AfterCall(p, lim, build, live, c.o)
    ensures Recorded(build, words, calls + [c], rows.prompts + [row])
    ensures next.messages == Conversation(build, words, rows.prompts + [row], Echoes(calls + [c], |calls| + 1))
  {
    row := CallRow(p, lim, build, live, c.o, c.captured);
    next := AfterCall(p, lim, build, live, c.o);
    RecordRow(build, words, calls, c, rows.prompts, row);
    EchoNext(build, words, calls, c, rows.prompts, row);
  }

  lemma RecordCall(p: Puzzle, lim: Limits, build: Prompts, words: seq<Word>, calls: seq<OneCall>, w: World, c: OneCall)
    returns (t: World)
    requires Consistent(words, w) && InStep(build, words, calls, w) && Recorded(build, words, calls, w.rows.prompts)
    ensures t == React(p, lim, build, w, Call(c.o, c.captured)) && Consistent(words, t)
    ensures InStep(build, words, calls + [c], t) && Recorded(build, words, calls + [c], t.rows.prompts)
  {
    t := React(p, lim, build, w, Call(c.o, c.captured));
    ReactConsistent(p, lim, build, words, w, Call(c.o, c.captured));
    if w.live.None? {
      RecordLonger(build, words, calls, c, w.rows.prompts);
    } else {
      PromptMatches(build, words, w.rows, w.live.value, CallRow(p, lim, build, w.live.value, c.o, c.captured));
      var row, next := LiveCall(p, lim, build, words, calls, w.rows, w.live.value, c);
      assert t.rows.prompts == w.rows.prompts + [row];
      assert t.live.Some? ==> t.live.value == next;
    }
  }

  lemma {:induction false} InvocationRecorded(p: Puzzle, lim: Limits, build: Prompts, words: seq<Word>,
                                              calls: seq<OneCall>) returns (w: World)
    ensures w == Invocation(p, lim, build, words, calls) && Consistent(words, w)
    ensures InStep(build, words, calls, w) && Recorded(build, words, calls, w.rows.prompts)
    decreases |calls|
  {
    if calls == [] {
      w := React(p, lim, build, NewRun(words), Start);
    } else {
      var front, c := calls[..|calls| - 1], calls[|calls| - 1];
      assert calls == front + [c];
      var v := InvocationRecorded(p, lim, build, words, front);
      w := RecordCall(p, lim, build, words, front, v, c);
    }
  }

  /** When one row was echoed as it came. */
  ghost predicate EchoedAsIs(c: OneCall) {
    c.o.Reply? ==> Echo(c.o) == c.o.response
  }

  lemma RepliesAreEchoes(build: Prompts, words: seq<Word>, calls: seq<OneCall>, rows: seq<PromptRow>)
    requires Recorded(build, words, calls, rows)
    ensures SameReplies(rows, Raws(rows), Echoes(calls, |rows|), |rows| - 1)
            <==> forall i :: 0 <= i < |rows| - 1 ==> EchoedAsIs(calls[i])
  {
    forall i | 0 <= i < |rows|
      ensures rows[i].status != CallErrorStatus && Raws(rows)[i] != Echoes(calls, |rows|)[i] <==> !EchoedAsIs(calls[i])
    {
      assert RowOf(rows[i], calls[i]);
    }
  }

  /**
   Replay agreement: for the log of one uninterrupted invocation, the backfill
   reproduces every stored transcript exactly when every reply before the last row
   was echoed as it came (in particular when none was a MULTIPLE_PROPOSALS reply).
   */
  lemma ReplayAgreement(p: Puzzle, lim: Limits, build: Prompts, words: seq<Word>, calls: seq<OneCall>)
    returns (rows: seq<PromptRow>)
    ensures rows == Invocation(p, lim, build, words, calls).rows.prompts
    ensures OrderPrompts(rows) == rows && |rows| <= |calls|
    ensures (forall i: nat :: i < |rows| ==> TextAt(build, words, rows, Raws(rows), i) == rows[i].promptText)
            <==> (forall i :: 0 <= i < |rows| - 1 ==> EchoedAsIs(calls[i]))
  {
    var w := InvocationRecorded(p, lim, build, words, calls);
    rows := w.rows.prompts;
    LoggedIsOrdered(rows);
    OrderedStays(rows);
    TextsAgree(build, words, rows, Raws(rows), Echoes(calls, |rows|));
    RepliesAreEchoes(build, words, calls, rows);
  }

  /**
   So, when only the last reply, if any, held several proposals, the backfill's result is
   exactly the stored transcripts, row by row.
   */
  lemma PlainRunsReplay(p: Puzzle, lim: Limits, build: Prompts, words: seq<Word>, calls: seq<OneCall>)
    returns (rows: seq<PromptRow>)
    requires forall i :: 0 <= i < |calls| - 1 && calls[i].o.Reply? ==> !calls[i].o.multipleProposals
    ensures rows == Invocation(p, lim, build, words, calls).rows.prompts && OrderPrompts(rows) == rows
    ensures Texts(build, words, rows, Raws(rows), |rows|)
            == seq(|rows|, i requires 0 <= i < |rows| => rows[i].promptText)
  {
    rows := ReplayAgreement(p, lim, build, words, calls);
    assert forall i :: 0 <= i < |rows| - 1 ==> EchoedAsIs(calls[i]);
    var texts := Texts(build, words, rows, Raws(rows), |rows|);
    forall i: nat | i < |rows| ensures texts[i] == rows[i].promptText {
      TextsAt(build, words, rows, Raws(rows), |rows|, i);
      assert TextAt(build, words, rows, Raws(rows), i) == rows[i].promptText;
    }
  }
}
