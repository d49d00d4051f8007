/**
 * The decision procedure of the Gaussian error assistant page: choose the
 * error text, look its digest up in the cached answer table, enforce the
 * free-query budget, and otherwise ask the remote model and append one row.
 *
 * Everything here is a value: the page's state is the answer-table file,
 * the snapshot of that file cached when the process first loaded it, and
 * the session's query counter. The class in page.dfy updates that state in
 * place and is proved against Click below.
 */
module ErrorHelper {
  import opened PyText

  datatype Option<T> = None | Some(value: T)

  /** Free remote-model queries per session. */
  const MaxFreeQueries: nat := 5

  /** Number of trailing log lines taken from an uploaded file. */
  const TailLength: nat := 30

  const KeyMissingMessage: string := "OpenAI API key not set. Cannot use fallback analysis."
  const ApiErrorPrefix: string := "Error calling OpenAI API: "

  /** One row of the answer table (columns log_hash, error_line, gpt_answer). */
  datatype Row = Row(logHash: string, errorLine: string, gptAnswer: string)

  /** The answer-table file, the snapshot the lookup searches, and the
      session's query counter. */
  datatype AppState = AppState(file: seq<Row>, snapshot: seq<Row>, queryCount: nat)

  /** What one press of the button shows. */
  datatype Outcome =
    | Warning                                   // empty input
    | FromMemory(answer: string)                // found in the snapshot
    | LimitReached                              // budget used up
    | Suggestion(answer: string, remaining: int) // fresh remote answer

  datatype Step = Step(state: AppState, outcome: Outcome)

  /** What the chat-completion service does with one request: it answers
      with a message, or the client raises an exception with this text. */
  datatype RemoteReply = Completion(content: string) | Raised(message: string)

  /** One press of the button: the error text it submits and the service's
      behaviour at that moment. */
  datatype Request = Request(errorText: string, remote: string -> RemoteReply)

  /** The state is well formed: the snapshot is an earlier version of the
      append-only file, and the counter has not passed the budget. */
  ghost predicate ValidState(s: AppState) {
    s.snapshot <= s.file && s.queryCount <= MaxFreeQueries
  }

  // ---------------------------------------------------------------- input

  /** `extract_log_tail(file, n)`: the last `n` lines of the decoded text. */
  function ExtractLogTail(content: string, n: nat): (tail: seq<string>)
    ensures var lines := SplitLines(content);
      |tail| <= |lines| && tail == lines[|lines| - |tail|..]
    ensures n > 0 ==> |tail| == Min(n, |SplitLines(content)|)
    ensures n == 0 ==> tail == SplitLines(content)
    ensures |SplitLines(content)| <= n ==> tail == SplitLines(content)
    ensures forall k :: 0 <= k < |tail| ==> NoBreak(tail[k])
  {
    TailOf(SplitLines(content), n)
  }

  /** The error text the page submits: the joined tail of an uploaded file
      when there is one (whatever was pasted), else the stripped pasted text. */
  function SelectInput(upload: Option<string>, pasted: string): (text: string)
    ensures upload.Some? ==> text == JoinLines(ExtractLogTail(upload.value, TailLength))
    ensures upload.Some? ==>
      SplitLines(text) == DropFinalEmpty(ExtractLogTail(upload.value, TailLength))
    ensures upload.None? ==> text == Strip(pasted)
    ensures upload.None? ==> (text == "" <==> AllSpace(pasted))
  {
    match upload
    case Some(content) =>
      var tail := ExtractLogTail(content, TailLength);
      SplitJoin(tail);
      JoinLines(tail)
    case None =>
      if pasted != "" then Strip(pasted) else ""
  }

  // --------------------------------------------------------------- answers

  /** `query_gpt`: without a key it answers with a fixed message and makes no
      request; otherwise it returns the stripped reply, or the exception text
      behind a fixed prefix. */
  function QueryGpt(apiKey: string, errorText: string, remote: string -> RemoteReply): (answer: string)
    ensures apiKey == "" ==> answer == KeyMissingMessage
    ensures apiKey != "" && remote(errorText).Completion? ==>
      answer == Strip(remote(errorText).content)
    ensures apiKey != "" && remote(errorText).Raised? ==>
      answer == ApiErrorPrefix + remote(errorText).message
  {
    if apiKey == "" then KeyMissingMessage
    else match remote(errorText)
      case Completion(content) => Strip(content)
      case Raised(e) => ApiErrorPrefix + e
  }

  // ---------------------------------------------------------------- lookup

  ghost predicate HasKey(rows: seq<Row>, h: string) {
    exists i :: 0 <= i < |rows| && rows[i].logHash == h
  }

  /** Row `i` is the first row whose hash is `h`. */
  ghost predicate FirstMatch(rows: seq<Row>, h: string, i: int) {
    0 <= i < |rows| && rows[i].logHash == h &&
    forall j :: 0 <= j < i ==> rows[j].logHash != h
  }

  function FirstIndexOf(rows: seq<Row>, h: string): (i: nat)
    ensures i <= |rows|
    ensures forall j :: 0 <= j < i ==> rows[j].logHash != h
    ensures i < |rows| ==> rows[i].logHash == h
  {
    if rows == [] || rows[0].logHash == h then 0 else 1 + FirstIndexOf(rows[1..], h)
  }

  /** `memory_df[memory_df["log_hash"] == h].iloc[0]["gpt_answer"]`, if any row matches. */
  function Lookup(rows: seq<Row>, h: string): (r: Option<string>)
    ensures r.Some? <==> HasKey(rows, h)
    ensures r.Some? ==> exists i :: FirstMatch(rows, h, i) && rows[i].gptAnswer == r.value
  {
    var i := FirstIndexOf(rows, h);
    if i < |rows| then
      assert FirstMatch(rows, h, i);
      Some(rows[i].gptAnswer)
    else None
  }

  // ----------------------------------------------------------------- click

  /** The state of a process that has just started: the answer file is the one
      on disk (created empty when there is none), the snapshot is loaded from
      it, and the session counter starts at 0. */
  function Boot(existing: Option<seq<Row>>): (s: AppState)
    ensures existing.None? ==> s.file == []
    ensures existing.Some? ==> s.file == existing.value
    ensures s.snapshot == s.file && s.queryCount == 0
    ensures ValidState(s)
  {
    var rows := if existing.Some? then existing.value else [];
    AppState(rows, rows, 0)
  }

  /** A new browser session in a running process: its own counter from 0,
      the same file and the same cached snapshot. */
  function NewSession(s: AppState): (t: AppState)
    ensures t.file == s.file && t.snapshot == s.snapshot && t.queryCount == 0
    ensures ValidState(s) ==> ValidState(t)
  {
    s.(queryCount := 0)
  }

  /** One press of "Analyze with AI" with `text` as the error text. */
  function Click(s: AppState, text: string, apiKey: string, digest: string -> string,
                 remote: string -> RemoteReply): (r: Step)
    ensures r.outcome.Warning? <==> text == ""
    ensures r.outcome.FromMemory? <==> text != "" && HasKey(s.snapshot, digest(text))
    ensures r.outcome.FromMemory? ==>
      exists i :: FirstMatch(s.snapshot, digest(text), i) && s.snapshot[i].gptAnswer == r.outcome.answer
    ensures r.outcome.LimitReached? <==>
      text != "" && !HasKey(s.snapshot, digest(text)) && s.queryCount >= MaxFreeQueries
    ensures r.outcome.Suggestion? <==>
      text != "" && !HasKey(s.snapshot, digest(text)) && s.queryCount < MaxFreeQueries
    ensures !r.outcome.Suggestion? ==> r.state == s
    ensures r.outcome.Suggestion? ==>
      && text != ""
      && r.outcome.answer == QueryGpt(apiKey, text, remote)
      && r.state.file == s.file + [Row(digest(text), LastLine(text), r.outcome.answer)]
      && r.state.snapshot == s.snapshot
      && r.state.queryCount == s.queryCount + 1
      && r.outcome.remaining == MaxFreeQueries - r.state.queryCount
      && 0 <= r.outcome.remaining < MaxFreeQueries
  {
    if text == "" then Step(s, Warning)
    else
      var logHash := digest(text);
      match Lookup(s.snapshot, logHash)
      case Some(answer) => Step(s, FromMemory(answer))
      case None =>
        if s.queryCount >= MaxFreeQueries then Step(s, LimitReached)
        else
          var answer := QueryGpt(apiKey, text, remote);
          var t := s.(file := s.file + [Row(logHash, LastLine(text), answer)],
                      queryCount := s.queryCount + 1);
          Step(t, Suggestion(answer, MaxFreeQueries - t.queryCount))
  }

  /** The state after a sequence of presses in one session. */
  function Run(s: AppState, apiKey: string, digest: string -> string, requests: seq<Request>): AppState
    decreases |requests|
  {
    if requests == [] then s
    else
      var step := Click(s, requests[0].errorText, apiKey, digest, requests[0].remote);
      Run(step.state, apiKey, digest, requests[1..])
  }

  // ---------------------------------------------------------------- lemmas

  /** Every press keeps the state well formed. */
  lemma ClickPreservesValid(s: AppState, text: string, apiKey: string, digest: string -> string,
                            remote: string -> RemoteReply)
    requires ValidState(s)
    ensures ValidState(Click(s, text, apiKey, digest, remote).state)
  {
  }

  /** Over any sequence of presses the counter never passes the budget, the
      file only grows at its end, by exactly one row per counted query, and
      the snapshot never changes. */
  lemma {:induction false} RunKeepsBudget(s: AppState, apiKey: string, digest: string -> string,
                                          requests: seq<Request>)
    requires s.queryCount <= MaxFreeQueries
    ensures var t := Run(s, apiKey, digest, requests);
      s.queryCount <= t.queryCount <= MaxFreeQueries &&
      s.file <= t.file &&
      |t.file| == |s.file| + (t.queryCount - s.queryCount) &&
      t.snapshot == s.snapshot
    decreases |requests|
  {
    if requests != [] {
      var step := Click(s, requests[0].errorText, apiKey, digest, requests[0].remote);
      RunKeepsBudget(step.state, apiKey, digest, requests[1..]);
      var t := Run(step.state, apiKey, digest, requests[1..]);
      assert t.file[..|step.state.file|] == step.state.file;
      assert step.state.file[..|s.file|] == s.file;
      assert t.file[..|s.file|] == s.file;
    }
  }

  /** A session that only submits new, non-empty texts gets exactly as many
      remote answers as the budget allows; after that the counter stays at
      the limit. */
  lemma {:induction false} RunOfMisses(s: AppState, apiKey: string, digest: string -> string,
                                       requests: seq<Request>)
    requires s.queryCount <= MaxFreeQueries
    requires forall k :: 0 <= k < |requests| ==>
      requests[k].errorText != "" && !HasKey(s.snapshot, digest(requests[k].errorText))
    ensures Run(s, apiKey, digest, requests).queryCount == Min(MaxFreeQueries, s.queryCount + |requests|)
    decreases |requests|
  {
    if requests != [] {
      var step := Click(s, requests[0].errorText, apiKey, digest, requests[0].remote);
      assert step.state.snapshot == s.snapshot;
      forall k | 0 <= k < |requests[1..]|
        ensures requests[1..][k].errorText != "" &&
                !HasKey(step.state.snapshot, digest(requests[1..][k].errorText))
      {
        assert requests[1..][k] == requests[k + 1];
      }
      RunOfMisses(step.state, apiKey, digest, requests[1..]);
    }
  }

  /** Five fresh questions in a new session use up the budget: the sixth is
      refused and leaves the counter at five. */
  lemma FiveThenLimit(s: AppState, apiKey: string, digest: string -> string,
                      requests: seq<Request>, text: string, remote: string -> RemoteReply)
    requires s.queryCount == 0 && |requests| == MaxFreeQueries
    requires forall k :: 0 <= k < |requests| ==>
      requests[k].errorText != "" && !HasKey(s.snapshot, digest(requests[k].errorText))
    requires text != "" && !HasKey(s.snapshot, digest(text))
    ensures var t := Run(s, apiKey, digest, requests);
      t.queryCount == MaxFreeQueries &&
      Click(t, text, apiKey, digest, remote) == Step(t, LimitReached)
  {
    RunOfMisses(s, apiKey, digest, requests);
    RunKeepsBudget(s, apiKey, digest, requests);
  }

  /** A snapshot hit is answered even when the budget is used up. */
  lemma MemoryBeatsLimit(s: AppState, text: string, apiKey: string, digest: string -> string,
                         remote: string -> RemoteReply)
    requires text != "" && s.queryCount >= MaxFreeQueries && HasKey(s.snapshot, digest(text))
    ensures Click(s, text, apiKey, digest, remote).outcome.FromMemory?
    ensures Click(s, text, apiKey, digest, remote).state == s
  {
  }

  /** Only a Suggestion consults the remote model: every other outcome, and
      the state after it, are the same whatever the service would do. An
      empty text does not even use the digest. */
  lemma NoRemoteCallUnlessSuggestion(s: AppState, text: string, apiKey: string,
                                     digest: string -> string, remote1: string -> RemoteReply,
                                     remote2: string -> RemoteReply)
    requires !Click(s, text, apiKey, digest, remote1).outcome.Suggestion?
    ensures Click(s, text, apiKey, digest, remote1) == Click(s, text, apiKey, digest, remote2)
  {
  }

  lemma EmptyTextOnlyWarns(s: AppState, apiKey: string, digest1: string -> string,
                           digest2: string -> string, remote1: string -> RemoteReply,
                           remote2: string -> RemoteReply)
    ensures Click(s, "", apiKey, digest1, remote1) == Step(s, Warning)
    ensures Click(s, "", apiKey, digest2, remote2) == Step(s, Warning)
  {
  }

  /** Without an API key no request is made: the answer does not depend on
      the service. */
  lemma NoKeyNoRequest(text: string, remote1: string -> RemoteReply, remote2: string -> RemoteReply)
    ensures QueryGpt("", text, remote1) == QueryGpt("", text, remote2) == KeyMissingMessage
  {
  }

  /** The snapshot is the file as it was when the process loaded it, so an
      answer saved by a press is not found by the next press in the same
      process: asking the same question again queries the model again and
      appends a second row with the same hash while a free query is left, and
      is refused when the first press used the last one. */
  lemma StaleSnapshotRepeatsQuery(s: AppState, text: string, apiKey: string, digest: string -> string,
                                  remote1: string -> RemoteReply, remote2: string -> RemoteReply)
    requires Click(s, text, apiKey, digest, remote1).outcome.Suggestion?
    ensures var s1 := Click(s, text, apiKey, digest, remote1).state;
      var r2 := Click(s1, text, apiKey, digest, remote2);
      s.queryCount + 1 < MaxFreeQueries ==>
        r2.outcome.Suggestion? &&
        |r2.state.file| == |s.file| + 2 &&
        r2.state.file[|s.file|].logHash == r2.state.file[|s.file| + 1].logHash == digest(text)
    ensures var s1 := Click(s, text, apiKey, digest, remote1).state;
      var r2 := Click(s1, text, apiKey, digest, remote2);
      s.queryCount + 1 == MaxFreeQueries ==> r2.outcome == LimitReached && r2.state == s1
  {
  }

  /** After a restart the process reloads the file, so a question answered
      before (and not answered earlier in the file) is now found in memory,
      with the answer that was saved, whatever the budget. */
  lemma {:induction false} RestartRecallsAnswer(s: AppState, text: string, apiKey: string,
                                                digest: string -> string,
                                                remote1: string -> RemoteReply,
                                                remote2: string -> RemoteReply)
    requires Click(s, text, apiKey, digest, remote1).outcome.Suggestion?
    requires !HasKey(s.file, digest(text))
    ensures var r1 := Click(s, text, apiKey, digest, remote1);
      Click(Boot(Some(r1.state.file)), text, apiKey, digest, remote2).outcome ==
        FromMemory(r1.outcome.answer)
  {
    var r1 := Click(s, text, apiKey, digest, remote1);
    var rows := r1.state.file;
    var h := digest(text);
    assert rows[|s.file|].logHash == h;
    assert HasKey(rows, h);
    forall i | FirstMatch(rows, h, i)
      ensures i == |s.file|
    {
    }
  }

  // ------------------------------------------------------------ stored line

  /** For pasted text the stored error_line is the text after its last line
      break (the whole text when it has none): stripping leaves no trailing
      break. */
  lemma PastedErrorLine(pasted: string)
    requires SelectInput(None, pasted) != ""
    ensures LastLine(SelectInput(None, pasted)) == AfterLastBreak(Strip(pasted))
  {
    var text := Strip(pasted);
    if IsLineBreak(text[|text| - 1]) {
      LineBreakIsSpace(text[|text| - 1]);
    }
    LastLineIsFinalSegment(text);
  }

  /** An upload decides the submitted text on its own: what was pasted
      beside it is ignored. */
  lemma UploadWins(content: string, pasted1: string, pasted2: string)
    ensures SelectInput(Some(content), pasted1) == SelectInput(Some(content), pasted2)
  {
  }

  /** Only pasted text is stripped. A one-line upload, blank or not, is
      submitted exactly as it is, so the press goes past the empty-text
      warning; the same line pasted into the text area only warns when it is
      blank. */
  lemma BlankUploadIsSubmitted(s: AppState, content: string, pasted: string, apiKey: string,
                               digest: string -> string, remote: string -> RemoteReply)
    requires content != "" && NoBreak(content)
    ensures SelectInput(Some(content), pasted) == content
    ensures !Click(s, SelectInput(Some(content), pasted), apiKey, digest, remote).outcome.Warning?
    ensures AllSpace(content) ==>
      Click(s, SelectInput(None, content), apiKey, digest, remote) == Step(s, Warning)
  {
    assert SplitLines(content) == [content];
    assert ExtractLogTail(content, TailLength) == [content];
  }

  /** A press on an upload stops at the empty-text warning exactly when its
      30-line tail is no line at all or one empty line; in particular an
      upload of two or more blank lines is submitted. */
  lemma UploadWarnsOnlyWhenTailEmpty(s: AppState, content: string, pasted: string, apiKey: string,
                                    digest: string -> string, remote: string -> RemoteReply)
    ensures var tail := ExtractLogTail(content, TailLength);
      Click(s, SelectInput(Some(content), pasted), apiKey, digest, remote).outcome.Warning?
      <==> (tail == [] || tail == [""])
  {
  }

  /** For an uploaded file the submitted text has at most 30 lines, and when
      the tail's last line is not empty the stored error_line is that line. */
  lemma UploadedErrorLine(content: string, pasted: string)
    requires var tail := ExtractLogTail(content, TailLength);
      tail != [] && tail[|tail| - 1] != ""
    ensures var tail := ExtractLogTail(content, TailLength);
      var text := SelectInput(Some(content), pasted);
      text != "" && |SplitLines(text)| <= TailLength && LastLine(text) == tail[|tail| - 1]
  {
  }
}
