/**
 One worker of an LLM run as an object: the conversation, the known prefix and the
 prompt number that runLlmStrategy updates around each call
 (backend/src/modules/strategy/llm-strategy-runner.service.ts).
 */
module LlmWorker {
  import opened Options
  import opened Puzzles
  import opened LlmLoop
  import opened LlmHistory
  import opened TokenBound

  class Worker {
    const run: LlmRun
    var messages: seq<Message>
    var promptNumber: nat
    var known: Option<KnownPrefix>
    ghost var duplicateErrors: nat

    /** The state rebuilt from a run's rows. */
    constructor (run: LlmRun, rows: Rows)
      requires run.State() == Rebuild(rows).loop
      ensures this.run == run && State() == Rebuild(rows)
    {
      this.run := run;
      messages, promptNumber, known := ReconstructMessages(rows.prompts), LastPromptNumber(rows.prompts), None;
      duplicateErrors := 0;
    }

    ghost function State(): Live
      reads this, run
    {
      Live(run.State(), messages, promptNumber, known, duplicateErrors)
    }

    /** What the next call reserves. */
    method WorstCase(build: Prompts, maxOutputTokens: nat) returns (tokens: nat)
      ensures tokens == maxOutputTokens + UpperBound(Request(build, State()), known)
    {
      var prompt := BuildPrompt(build, run.availableWords, run.lockedInGroups, run.lastFailedGuess);
      var bound := InputTokenUpperBound(messages + [Message(User, prompt)], known);
      tokens := maxOutputTokens + bound;
    }

    /** The reply is echoed, compacted when it held several proposals, and the known prefix reaches behind it. */
    method EchoReply(o: Outcome)
      requires o.Reply?
      modifies this`messages, this`known
      ensures messages == old(messages) + [Message(Assistant, Echo(o))]
      ensures known == if o.promptTokens.Some?
                       then Some(KnownPrefixAfterReply(|old(messages)|, o.promptTokens.value, Echo(o))) else old(known)
    {
      var assistantContent := o.response;
      if o.groupsFound && o.multipleProposals {
        assistantContent := o.compactAnswer;
      }
      messages := messages + [Message(Assistant, assistantContent)];
      if o.promptTokens.Some? {
        known := Some(KnownPrefixAfterReply(|messages| - 1, o.promptTokens.value, assistantContent));
      }
    }

    /**
     One iteration of the loop, from the prompt to what is flushed: the row of the call
     with its proposals, and the guesses they became.
     */
    method Iteration(p: Puzzle, lim: Limits, build: Prompts, o: Outcome, captured: bool,
                     retryAfterSeconds: Option<int>, fallbackSeconds: int)
      returns (row: PromptRow, failed: Option<ErrorCode>, waitMs: Option<int>)
      modifies this, run
      ensures State() == AfterCall(p, lim, build, old(State()), o)
      ensures row == CallRow(p, lim, build, old(State()), o, captured)
      ensures failed == if o.CallError? then Some(EffectiveCode(lim, old(State()).loop, o.code, o.now)) else None
      ensures waitMs.Some? <==> failed == Some(RateLimited)
    {
      ghost var before := State();
      var prompt := BuildPrompt(build, run.availableWords, run.lockedInGroups, run.lastFailedGuess);
      messages := messages + [Message(User, prompt)];
      assert messages == Request(build, before) && messages[..|messages| - 1] == before.messages;
      var transcriptText := Format(messages);
      var requestBody := if captured then Some(messages) else None;
      promptNumber := promptNumber + 1;
      var promptType := if run.lastFailedGuess.Some? then Retry else InitialSolve;
      var status := Parsed;
      var response: Option<string> := None;
      var proposals;
      proposals, failed, waitMs := run.HandleOutcome(p, lim, o, retryAfterSeconds, fallbackSeconds);
      if o.Reply? {
        if !o.groupsFound {
          status := MalformedNoAnswerBlock;
        }
        response := Some(o.response);
        EchoReply(o);
      } else {
        messages := messages[..|messages| - 1];
        status := CallErrorStatus;
        duplicateErrors := duplicateErrors + DuplicateErrors(o);
      }
      row := PromptRow(promptNumber, 1, promptType, status, transcriptText, response, requestBody, proposals);
    }
  }
}
