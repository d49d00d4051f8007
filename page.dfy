/**
 * The page's mutable state as one object: the answer-table file, the
 * snapshot of it that the process cached at start-up, and the session's
 * query counter. Every method is proved against the value-level model in
 * ErrorHelper.
 */
module Page {
  import opened PyText
  import opened ErrorHelper

  class Assistant {
    /** The configured API key ("" when none is set). */
    const apiKey: string
    /** The content digest used as lookup key (SHA-256 hex in the page). */
    const digest: string -> string

    var file: seq<Row>
    var snapshot: seq<Row>
    var queryCount: nat

    ghost function State(): AppState
      reads this
    {
      AppState(file, snapshot, queryCount)
    }

    ghost predicate Valid()
      reads this
    {
      ValidState(State())
    }

    /** Start-up: create the file empty when it does not exist, load the
        snapshot from it, and start the session counter at 0. */
    constructor (apiKey: string, digest: string -> string, existing: Option<seq<Row>>)
      ensures this.apiKey == apiKey && this.digest == digest
      ensures State() == Boot(existing)
      ensures Valid()
    {
      this.apiKey := apiKey;
      this.digest := digest;
      var rows := if existing.Some? then existing.value else [];
      file := rows;
      snapshot := rows;
      queryCount := 0;
    }

    /** A new browser session: the counter starts again at 0. */
    method StartSession()
      requires Valid()
      modifies this`queryCount
      ensures Valid()
      ensures State() == NewSession(old(State()))
    {
      queryCount := 0;
    }

    /** `save_to_memory`: append one row to the file; the snapshot is not
        refreshed. */
    method SaveToMemory(logHash: string, errorLine: string, gptAnswer: string)
      requires Valid()
      modifies this`file
      ensures Valid()
      ensures file == old(file) + [Row(logHash, errorLine, gptAnswer)]
    {
      file := file + [Row(logHash, errorLine, gptAnswer)];
    }

    /** The handler of the "Analyze with AI" button. */
    method Analyze(errorText: string, remote: string -> RemoteReply) returns (outcome: Outcome)
      requires Valid()
      modifies this`file, this`queryCount
      ensures Valid()
      ensures Step(State(), outcome) == Click(old(State()), errorText, apiKey, digest, remote)
    {
      if errorText == "" {
        return Warning;
      }
      var logHash := digest(errorText);
      var hit := Lookup(snapshot, logHash);
      if hit.Some? {
        return FromMemory(hit.value);
      }
      if queryCount >= MaxFreeQueries {
        return LimitReached;
      }
      var response := QueryGpt(apiKey, errorText, remote);
      SaveToMemory(logHash, LastLine(errorText), response);
      queryCount := queryCount + 1;
      outcome := Suggestion(response, MaxFreeQueries - queryCount);
    }

    /** One rerun of the page script: pick the error text from the upload or
        the text area, and handle the button when it was pressed. */
    method Rerun(upload: Option<string>, pasted: string, pressed: bool,
                 remote: string -> RemoteReply) returns (shown: Option<Outcome>)
      requires Valid()
      modifies this`file, this`queryCount
      ensures Valid()
      ensures !pressed ==> shown == None && State() == old(State())
      ensures pressed ==> shown.Some?
      ensures pressed ==>
        Step(State(), shown.value) == Click(old(State()), SelectInput(upload, pasted), apiKey, digest, remote)
    {
      var errorText := SelectInput(upload, pasted);
      if !pressed {
        return None;
      }
      var outcome := Analyze(errorText, remote);
      shown := Some(outcome);
    }
  }
}
