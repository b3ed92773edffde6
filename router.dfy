/**
  The study-content router: it picks a study mode for a slide when the client
  asks for "auto", rejects modes it has no prompt for, and records a quiz or
  game attempt in the session statistics.
 */
module Router {
  import opened Wrappers
  import opened Text
  import opened ContextBuilder
  import opened SessionMemory

  /** The keys of `PROMPT_MAP`: the modes a prompt template exists for. */
  const PromptModes: set<string> := {"memorize", "quiz", "revise", "visualize", "game"}

  /** The modes whose requests are recorded as an attempt. */
  const ScoredModes: set<string> := {"game", "quiz"}

  /** `auto_detect_mode`: an ordered chain of rules on the line count and the lower-cased text. */
  function AutoDetectMode(ctx: Context): (mode: string)
    ensures mode in PromptModes
  {
    var text := Lower(ctx.rawText);
    var n := |ctx.lines|;
    if n <= 3 then "memorize"
    else if Contains(text, "step") || Contains(text, "process") then "visualize"
    else if n >= 6 then "revise"
    else if Contains(text, "define") || Contains(text, "what is") then "quiz"
    else "game"
  }

  /** A slide of at most three non-blank lines is always memorised, whatever words it holds. */
  lemma ShortSlideMemorize(ctx: Context)
    requires |ctx.lines| <= 3
    ensures AutoDetectMode(ctx) == "memorize"
  {
  }

  /**
    The step/process test comes before the length test: a slide of four or more
    lines that mentions a process is visualised even when it would be long
    enough to revise, and only long slides without one are revised.
   */
  lemma ProcessBeforeRevise(ctx: Context)
    requires |ctx.lines| >= 4
    ensures Contains(Lower(ctx.rawText), "process") ==> AutoDetectMode(ctx) == "visualize"
    ensures AutoDetectMode(ctx) == "revise" <==>
      |ctx.lines| >= 6 && !Contains(Lower(ctx.rawText), "step") && !Contains(Lower(ctx.rawText), "process")
  {
  }

  /** Which mode a four- or five-line slide without a step/process keyword gets. */
  lemma MidLengthModes(ctx: Context)
    requires 4 <= |ctx.lines| <= 5
    requires !Contains(Lower(ctx.rawText), "step") && !Contains(Lower(ctx.rawText), "process")
    ensures AutoDetectMode(ctx) ==
      if Contains(Lower(ctx.rawText), "define") || Contains(Lower(ctx.rawText), "what is") then "quiz" else "game"
  {
  }

  /** The `ValueError` message for a mode without a prompt. */
  function UnsupportedMode(mode: string): string {
    "Unsupported MCP mode: " + mode
  }

  /**
    The mode `run_mcp` works with: "auto" is replaced by the detected mode, and
    a mode outside `PROMPT_MAP` is an error.
   */
  function ResolveMode(mode: string, ctx: Context): (r: Result<string, string>)
    ensures r.Success? ==> r.value in PromptModes
    ensures mode == "auto" ==> r == Success(AutoDetectMode(ctx))
    ensures mode != "auto" ==> (r.Success? <==> mode in PromptModes)
    ensures mode != "auto" && r.Success? ==> r.value == mode
    ensures r.Failure? ==> r.error == UnsupportedMode(mode)
  {
    var resolved := if mode == "auto" then AutoDetectMode(ctx) else mode;
    if resolved in PromptModes then Success(resolved) else Failure(UnsupportedMode(resolved))
  }

  /** The dictionary `run_mcp` returns. */
  datatype McpResponse = McpResponse(mode: string, output: string)

  /**
    `run_mcp`. The prompt built from `PROMPT_MAP[mode]` and the call to the AI
    service are outside the model: `aiOutput` is the text the service returned
    for that prompt. Game and quiz requests are recorded for the session as 3
    correct answers out of 5; nothing else touches the session table.
   */
  method RunMcp(memory: Memory, mode: string, rawText: string, category: Option<string>, sessionId: string, aiOutput: string)
    returns (r: Result<McpResponse, string>)
    requires memory.Valid()
    modifies memory
    ensures memory.Valid()
    ensures var resolved := ResolveMode(mode, BuildContext(rawText, category));
      && (resolved.Failure? ==> r == Failure(resolved.error))
      && (resolved.Success? ==> r == Success(McpResponse(resolved.value, aiOutput)))
    ensures r.Success? && r.value.mode in ScoredModes ==>
      var title := BuildContext(rawText, category).title;
      memory.table == old(memory.table)[sessionId := Recorded(Entry(old(memory.table), sessionId), title, 3, 5)]
    ensures !(r.Success? && r.value.mode in ScoredModes) ==> memory.table == old(memory.table)
  {
    var ctx := BuildContext(rawText, category);
    var resolved := mode;
    if resolved == "auto" {
      resolved := AutoDetectMode(ctx);
    }
    if resolved !in PromptModes {
      return Failure(UnsupportedMode(resolved));
    }
    if resolved in ScoredModes {
      memory.RecordAttempt(sessionId, ctx.title, 3, 5);
    }
    r := Success(McpResponse(resolved, aiOutput));
  }

  /**
    A recorded game or quiz request always adds five attempts, three correct and
    two wrong, and marks the slide's title as a weak topic.
   */
  lemma ScoredRequestEffect(s: Stats, title: string)
    requires Balanced(s)
    ensures var r := Recorded(s, title, 3, 5);
      && r.attempts == s.attempts + 5 && r.correct == s.correct + 3 && r.wrong == s.wrong + 2
      && title in r.weakTopics && Balanced(r)
  {
    RecordedKeepsBalance(s, title, 3, 5);
  }
}
