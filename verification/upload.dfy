/**
 One upload in `show_design_upload_tools` (profile_manager.py, lines 129-192),
 after the image has been read: count the tokens of the OCR text, stop above
 the ceiling, otherwise ask the language model once, parse its reply, and
 save the records when there is at least one.

 The OCR text (`None` when no file was uploaded), the encoding and the
 language model (`None` where `get_text_response` returns `None` after an
 exception) are parameters. The run records the prompts sent to the model so
 that "no call was made" can be stated.
 */
module Upload {
  import opened Wrappers
  import opened Parser
  import opened Storage
  import opened RecordStore
  import opened Tokens

  /** How one upload ends (the message shown to the user). */
  datatype Outcome =
    | NoFile                        // "No file uploaded."
    | TokenLimitExceeded(count: nat) // "Token count exceeds the model's maximum context length."
    | ResponseFailed                // "Failed to extract text."
    | FormatRejected                // "Could not extract all details."
    | NothingExtracted              // "No items could be extracted."
    | Saved(count: nat)             // "Items extracted and saved successfully!"

  /** The outcome, the disk afterwards, and the texts sent to the model. */
  datatype Run = Run(outcome: Outcome, disk: Disk, prompts: seq<string>)

  function HandleUpload(disk: Disk, user: string, profile: string, ocrText: Option<string>,
                        encoding: Option<Encoding>, llm: string -> Option<string>): (r: Run)
    // the model is asked at most once, with the OCR text, and only within budget
    ensures r.prompts == [] || (ocrText.Some? && r.prompts == [ocrText.value])
    ensures r.outcome.TokenLimitExceeded? <==>
              ocrText.Some? && !WithinBudget(TokenCount(encoding, GateMessages(ocrText.value)))
    ensures r.outcome.TokenLimitExceeded? ==> r.prompts == []
    ensures ocrText.Some? && WithinBudget(TokenCount(encoding, GateMessages(ocrText.value))) ==>
              r.prompts == [ocrText.value]
    // only a successful save changes the disk
    ensures !r.outcome.Saved? ==> r.disk == disk
    ensures r.outcome.Saved? ==>
              && ocrText.Some? && llm(ocrText.value).Some?
              && var reply := llm(ocrText.value).value;
              && ParseReply(reply).Success?
              && r.outcome.count == |ParseReply(reply).value| > 0
              && r.disk == SaveToExcel(disk, user, profile, ParseReply(reply).value)
    // a reply that parses to at least one record is saved, all of it
    ensures ocrText.Some? && WithinBudget(TokenCount(encoding, GateMessages(ocrText.value)))
            && llm(ocrText.value).Some? && ParseReply(llm(ocrText.value).value).Success?
            && |ParseReply(llm(ocrText.value).value).value| > 0
            ==> r.outcome.Saved?
    // the other endings, each exactly when it happens
    ensures r.outcome.NoFile? <==> ocrText.None?
    ensures r.outcome.ResponseFailed? <==> ocrText.Some? && r.prompts != [] && llm(ocrText.value).None?
    ensures r.outcome.FormatRejected? <==>
              ocrText.Some? && r.prompts != [] && llm(ocrText.value).Some?
              && ParseReply(llm(ocrText.value).value).Failure?
    ensures r.outcome.NothingExtracted? <==>
              ocrText.Some? && r.prompts != [] && llm(ocrText.value).Some?
              && ParseReply(llm(ocrText.value).value) == Success([])
  {
    match ocrText
    case None => Run(NoFile, disk, [])
    case Some(text) =>
      var count := TokenCount(encoding, GateMessages(text));
      if count > MaxContextTokens then Run(TokenLimitExceeded(count), disk, [])
      else
        match llm(text)
        case None => Run(ResponseFailed, disk, [text])
        case Some(reply) =>
          match ParseReply(reply)
          case Failure(_) => Run(FormatRejected, disk, [text])
          case Success(items) =>
            if |items| > 0 then Run(Saved(|items|), SaveToExcel(disk, user, profile, items), [text])
            else Run(NothingExtracted, disk, [text])
  }

  /** A reply that parses to no record leaves every table as it was. */
  lemma NothingToSaveKeepsDisk(disk: Disk, user: string, profile: string, text: string,
                               encoding: Option<Encoding>, llm: string -> Option<string>)
    requires WithinBudget(TokenCount(encoding, GateMessages(text)))
    requires llm(text).Some? && ParseReply(llm(text).value) == Success([])
    ensures HandleUpload(disk, user, profile, Some(text), encoding, llm)
            == Run(NothingExtracted, disk, [text])
  {
  }
}
