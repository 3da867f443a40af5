/**
 * The fallback dispatcher of AI/ai.go. Response fetches the server's stored
 * ciphertexts, decrypts them one at a time in stored order and sends one
 * generateContent request per key until one yields text. The HTTP exchange
 * of each attempt is an input: `upstream(i, request)` is what the i-th
 * attempt observed.
 */
module AI {
  import opened Wrappers
  import opened Crypt
  import opened Database
  import opened Strings

  const StatusOK: int := 200

  datatype Part = Part(text: string)
  /** candidates[i].content.parts of the generateContent response. */
  datatype Candidate = Candidate(parts: seq<Part>)
  datatype ApiErrorBody = ApiErrorBody(code: int, message: string, status: string)
  /** ApiResponse; a JSON "error" member that is absent or null is None. */
  datatype ApiResponse = ApiResponse(candidates: seq<Candidate>, error: Option<ApiErrorBody>)

  /** What json.Unmarshal made of the body. */
  datatype Parsed = Unparsable(cause: string) | Parsed(response: ApiResponse)
  /** What io.ReadAll returned. */
  datatype Body = ReadFailed(cause: string) | Read(parsed: Parsed)

  /** The request of one attempt: the decrypted key goes in the x-goog-api-key header. */
  datatype Request = Request(apiKey: string, systemInstruction: string, userInput: string)

  /** How one attempt went, in the order the code observes it. */
  datatype Exchange =
    | MarshalError(cause: string)     // json.Marshal of the request body
    | NewRequestError(cause: string)  // http.NewRequestWithContext
    | TransportError(cause: string)   // client.Do
    | Reply(status: int, body: Body)

  /** The per-key errors Response records in lastError. */
  datatype AttemptError =
    | RequestFailed(cause: string)    // "request failed for a key: %w"
    | BodyUnreadable(cause: string)   // "failed to read response body for a key: %w"
    | BadStatus(status: int)          // "API returned status %d"
    | ParseFailed(cause: string)      // "failed to parse API response: %w"
    | ApiError(message: string)       // "API error: %s"
    | EmptyResponse                   // "API returned a valid but empty response"

  datatype AiError =
    | FetchFailed(dbError: DbError)            // "could not fetch API keys from database: %w"
    | NoKeys                                   // "no API keys are configured for this server. ..."
    | KeyDecrypt(cryptoError: CryptoError)     // Decrypt's error, returned as is
    | AllKeysFailed(last: Option<AttemptError>) // "all available API keys failed. Last error: %w"

  /** What one attempt means for the loop: move on silently, move on recording an error, or answer. */
  datatype Step = Skipped | Failed(error: AttemptError) | Answered(text: string)

  /** The result of Response and how many stored keys it took from the list. */
  datatype Outcome = Outcome(result: Result<string, AiError>, iterations: nat)

  /** The classification of one exchange, independent of the loop that performs it. */
  function Classify(e: Exchange): (s: Step)
    ensures s.Skipped? <==> e.MarshalError? || e.NewRequestError?
    ensures s.Answered? <==>
              && e.Reply? && e.status == StatusOK && e.body.Read? && e.body.parsed.Parsed?
              && e.body.parsed.response.error.None?
              && |e.body.parsed.response.candidates| > 0
              && |e.body.parsed.response.candidates[0].parts| > 0
    ensures s.Answered? ==> s.text == e.body.parsed.response.candidates[0].parts[0].text
    ensures s == Failed(EmptyResponse) <==>
              && e.Reply? && e.status == StatusOK && e.body.Read? && e.body.parsed.Parsed?
              && e.body.parsed.response.error.None?
              && (|e.body.parsed.response.candidates| == 0 || |e.body.parsed.response.candidates[0].parts| == 0)
    ensures e.TransportError? ==> s == Failed(RequestFailed(e.cause))
    ensures e.Reply? && e.body.ReadFailed? ==> s == Failed(BodyUnreadable(e.body.cause))
    ensures e.Reply? && e.body.Read? && e.status != StatusOK ==> s == Failed(BadStatus(e.status))
    ensures e.Reply? && e.body.Read? && e.status == StatusOK && e.body.parsed.Unparsable? ==>
              s == Failed(ParseFailed(e.body.parsed.cause))
    ensures e.Reply? && e.body.Read? && e.status == StatusOK && e.body.parsed.Parsed? &&
            e.body.parsed.response.error.Some? ==>
              s == Failed(ApiError(e.body.parsed.response.error.value.message))
  {
    match e
    case MarshalError(_) => Skipped
    case NewRequestError(_) => Skipped
    case TransportError(cause) => Failed(RequestFailed(cause))
    case Reply(status, body) =>
      if body.ReadFailed? then Failed(BodyUnreadable(body.cause))
      else if status != StatusOK then Failed(BadStatus(status))
      else if body.parsed.Unparsable? then Failed(ParseFailed(body.parsed.cause))
      else
        var response := body.parsed.response;
        if response.error.Some? then Failed(ApiError(response.error.value.message))
        else if |response.candidates| > 0 && |response.candidates[0].parts| > 0 then
          Answered(response.candidates[0].parts[0].text)
        else Failed(EmptyResponse)
  }

  /** The step the j-th key leads to, or None when it does not decrypt. */
  function StepAt(c: Cipher, keys: seq<string>, systemInstruction: string, userInput: string,
                  upstream: (nat, Request) -> Exchange, j: nat): Option<Step>
    reads c
    requires j < |keys|
  {
    match c.Decrypt(keys[j])
    case Failure(_) => None
    case Success(apiKey) => Some(Classify(upstream(j, Request(apiKey, systemInstruction, userInput))))
  }

  /** lastError after a step. */
  function Record(last: Option<AttemptError>, s: Step): Option<AttemptError> {
    if s.Failed? then Some(s.error) else last
  }

  /** The loop from key i on, with lastError holding `last`. */
  function Fallback(c: Cipher, keys: seq<string>, systemInstruction: string, userInput: string,
                    upstream: (nat, Request) -> Exchange, i: nat, last: Option<AttemptError>): (o: Outcome)
    reads c
    requires i <= |keys|
    ensures i < |keys| ==> i < o.iterations <= |keys|
    ensures i == |keys| ==> o == Outcome(Failure(AllKeysFailed(last)), i)
    ensures o.result.Failure? ==> o.result.error.KeyDecrypt? || o.result.error.AllKeysFailed?
    ensures o.result.Failure? && o.result.error.AllKeysFailed? ==> o.iterations == |keys|
    decreases |keys| - i
  {
    if i == |keys| then Outcome(Failure(AllKeysFailed(last)), i)
    else match StepAt(c, keys, systemInstruction, userInput, upstream, i)
      case None => Outcome(Failure(KeyDecrypt(c.Decrypt(keys[i]).error)), i + 1)
      case Some(Answered(text)) => Outcome(Success(text), i + 1)
      case Some(s) => Fallback(c, keys, systemInstruction, userInput, upstream, i + 1, Record(last, s))
  }

  /** Response as a whole: fetch, the empty check, then the loop. */
  function Dispatch(store: Store, guildID: string, systemInstruction: string, userInput: string,
                    dbError: Option<string>, upstream: (nat, Request) -> Exchange): (o: Outcome)
    reads store, store.cipher
    ensures store.ViewAPIKeys(guildID, dbError).Failure? ==>
              o == Outcome(Failure(FetchFailed(store.ViewAPIKeys(guildID, dbError).error)), 0)
    ensures store.ViewAPIKeys(guildID, dbError) == Success([]) ==> o == Outcome(Failure(NoKeys), 0)
    ensures store.ViewAPIKeys(guildID, dbError).Success? && |store.ViewAPIKeys(guildID, dbError).value| > 0 ==>
              0 < o.iterations <= |store.ViewAPIKeys(guildID, dbError).value|
    ensures o.result.Failure? && o.result.error.AllKeysFailed? ==>
              o.iterations == |store.ViewAPIKeys(guildID, dbError).value|
  {
    match store.ViewAPIKeys(guildID, dbError)
    case Failure(e) => Outcome(Failure(FetchFailed(e)), 0)
    case Success(keys) =>
      if |keys| == 0 then Outcome(Failure(NoKeys), 0)
      else Fallback(store.cipher, keys, systemInstruction, userInput, upstream, 0, None)
  }

  method Response(store: Store, guildID: string, systemInstruction: string, userInput: string,
                  dbError: Option<string>, upstream: (nat, Request) -> Exchange)
    returns (r: Result<string, AiError>, ghost iterations: nat)
    ensures r == Dispatch(store, guildID, systemInstruction, userInput, dbError, upstream).result
    ensures iterations == Dispatch(store, guildID, systemInstruction, userInput, dbError, upstream).iterations
  {
    var fetched := store.ViewAPIKeys(guildID, dbError);
    if fetched.Failure? {
      return Failure(FetchFailed(fetched.error)), 0;
    }
    var apiKeys := fetched.value;
    if |apiKeys| == 0 {
      return Failure(NoKeys), 0;
    }
    var lastError: Option<AttemptError> := None;
    var i := 0;
    while i < |apiKeys|
      invariant i <= |apiKeys|
      invariant Fallback(store.cipher, apiKeys, systemInstruction, userInput, upstream, i, lastError)
                == Dispatch(store, guildID, systemInstruction, userInput, dbError, upstream)
    {
      var index := i;
      i := i + 1;
      var apiKey := store.cipher.Decrypt(apiKeys[index]);
      if apiKey.Failure? {
        return Failure(KeyDecrypt(apiKey.error)), i;
      }
      var exchange := upstream(index, Request(apiKey.value, systemInstruction, userInput));
      if exchange.MarshalError? || exchange.NewRequestError? {
        continue;
      }
      if exchange.TransportError? {
        lastError := Some(RequestFailed(exchange.cause));
        continue;
      }
      if exchange.body.ReadFailed? {
        lastError := Some(BodyUnreadable(exchange.body.cause));
        continue;
      }
      if exchange.status != StatusOK {
        lastError := Some(BadStatus(exchange.status));
        continue;
      }
      if exchange.body.parsed.Unparsable? {
        lastError := Some(ParseFailed(exchange.body.parsed.cause));
        continue;
      }
      var response := exchange.body.parsed.response;
      if response.error.Some? {
        lastError := Some(ApiError(response.error.value.message));
        continue;
      }
      if |response.candidates| > 0 && |response.candidates[0].parts| > 0 {
        return Success(response.candidates[0].parts[0].text), i;
      }
      lastError := Some(EmptyResponse);
    }
    return Failure(AllKeysFailed(lastError)), |apiKeys|;
  }

  // What the loop promises, proved about Fallback.

  /** Every key from i up to k decrypts and its attempt does not answer. */
  ghost predicate PassesOver(c: Cipher, keys: seq<string>, systemInstruction: string, userInput: string,
                             upstream: (nat, Request) -> Exchange, i: nat, k: nat)
    reads c
    requires k <= |keys|
  {
    forall j :: i <= j < k ==> Passes(StepAt(c, keys, systemInstruction, userInput, upstream, j))
  }

  predicate Passes(st: Option<Step>) {
    st.Some? && !st.value.Answered?
  }

  /** Keys are tried in stored order and the first answer is returned: no later key is tried. */
  lemma {:induction false} FirstAnswerWins(c: Cipher, keys: seq<string>, systemInstruction: string, userInput: string,
                                           upstream: (nat, Request) -> Exchange, i: nat, last: Option<AttemptError>,
                                           k: nat, text: string)
    requires i <= k < |keys|
    requires PassesOver(c, keys, systemInstruction, userInput, upstream, i, k)
    requires StepAt(c, keys, systemInstruction, userInput, upstream, k) == Some(Answered(text))
    ensures Fallback(c, keys, systemInstruction, userInput, upstream, i, last) == Outcome(Success(text), k + 1)
    decreases k - i
  {
    if i < k {
      assert Passes(StepAt(c, keys, systemInstruction, userInput, upstream, i));
      var s := StepAt(c, keys, systemInstruction, userInput, upstream, i).value;
      FirstAnswerWins(c, keys, systemInstruction, userInput, upstream, i + 1, Record(last, s), k, text);
    }
  }

  /** A key that does not decrypt ends the whole call with its error: no later key is tried. */
  lemma {:induction false} DecryptFailureAborts(c: Cipher, keys: seq<string>, systemInstruction: string, userInput: string,
                                                upstream: (nat, Request) -> Exchange, i: nat, last: Option<AttemptError>,
                                                k: nat)
    requires i <= k < |keys|
    requires PassesOver(c, keys, systemInstruction, userInput, upstream, i, k)
    requires c.Decrypt(keys[k]).Failure?
    ensures Fallback(c, keys, systemInstruction, userInput, upstream, i, last)
            == Outcome(Failure(KeyDecrypt(c.Decrypt(keys[k]).error)), k + 1)
    decreases k - i
  {
    if i < k {
      assert Passes(StepAt(c, keys, systemInstruction, userInput, upstream, i));
      var s := StepAt(c, keys, systemInstruction, userInput, upstream, i).value;
      DecryptFailureAborts(c, keys, systemInstruction, userInput, upstream, i + 1, Record(last, s), k);
    }
  }

  /** The error of the last step that recorded one, read from the end of the steps. */
  function LastRecorded(steps: seq<Step>): Option<AttemptError> {
    if steps == [] then None
    else if steps[|steps| - 1].Failed? then Some(steps[|steps| - 1].error)
    else LastRecorded(steps[..|steps| - 1])
  }

  function OrElse(a: Option<AttemptError>, b: Option<AttemptError>): Option<AttemptError> {
    if a.Some? then a else b
  }

  lemma {:induction false} LastRecordedCons(x: Step, t: seq<Step>)
    ensures LastRecorded([x] + t) == OrElse(LastRecorded(t), Record(None, x))
    decreases |t|
  {
    if t != [] {
      var s := [x] + t;
      assert s[..|s| - 1] == [x] + t[..|t| - 1];
      LastRecordedCons(x, t[..|t| - 1]);
    } else {
      assert ([x] + t)[..0] == [];
    }
  }

  lemma OrElseRecord(a: Option<AttemptError>, x: Step, last: Option<AttemptError>)
    ensures OrElse(OrElse(a, Record(None, x)), last) == OrElse(a, Record(last, x))
  {
  }

  lemma {:induction false} ExhaustedFrom(c: Cipher, keys: seq<string>, systemInstruction: string, userInput: string,
                                         upstream: (nat, Request) -> Exchange, steps: seq<Step>,
                                         i: nat, last: Option<AttemptError>)
    requires i <= |keys| == |steps|
    requires forall j :: i <= j < |keys| ==>
               StepAt(c, keys, systemInstruction, userInput, upstream, j) == Some(steps[j]) && !steps[j].Answered?
    ensures Fallback(c, keys, systemInstruction, userInput, upstream, i, last)
            == Outcome(Failure(AllKeysFailed(OrElse(LastRecorded(steps[i..]), last))), |keys|)
    decreases |keys| - i
  {
    if i == |keys| {
      assert steps[i..] == [];
    } else {
      var x := steps[i];
      assert StepAt(c, keys, systemInstruction, userInput, upstream, i) == Some(x) && !x.Answered?;
      assert Fallback(c, keys, systemInstruction, userInput, upstream, i, last)
          == Fallback(c, keys, systemInstruction, userInput, upstream, i + 1, Record(last, x));
      ExhaustedFrom(c, keys, systemInstruction, userInput, upstream, steps, i + 1, Record(last, x));
      assert steps[i..] == [x] + steps[i + 1..];
      LastRecordedCons(x, steps[i + 1..]);
      OrElseRecord(LastRecorded(steps[i + 1..]), x, last);
    }
  }

  /**
   * When every key decrypts and none answers, the call fails after exactly
   * |keys| iterations with the error of the last attempt that recorded one
   * (None when every attempt was skipped).
   */
  lemma ExhaustionReportsLastError(c: Cipher, keys: seq<string>, systemInstruction: string, userInput: string,
                                   upstream: (nat, Request) -> Exchange, steps: seq<Step>)
    requires |keys| == |steps|
    requires forall j :: 0 <= j < |keys| ==>
               StepAt(c, keys, systemInstruction, userInput, upstream, j) == Some(steps[j]) && !steps[j].Answered?
    ensures Fallback(c, keys, systemInstruction, userInput, upstream, 0, None)
            == Outcome(Failure(AllKeysFailed(LastRecorded(steps))), |keys|)
  {
    ExhaustedFrom(c, keys, systemInstruction, userInput, upstream, steps, 0, None);
    assert steps[0..] == steps;
  }

  lemma PassesOverCons(c: Cipher, keys: seq<string>, systemInstruction: string, userInput: string,
                       upstream: (nat, Request) -> Exchange, i: nat, k: nat)
    requires i < k <= |keys|
    requires Passes(StepAt(c, keys, systemInstruction, userInput, upstream, i))
    requires PassesOver(c, keys, systemInstruction, userInput, upstream, i + 1, k)
    ensures PassesOver(c, keys, systemInstruction, userInput, upstream, i, k)
  {
  }

  /** A key that does not pass is the last one taken: it answered or failed to decrypt. */
  lemma FallbackStopsAt(c: Cipher, keys: seq<string>, systemInstruction: string, userInput: string,
                        upstream: (nat, Request) -> Exchange, i: nat, last: Option<AttemptError>)
    requires i < |keys|
    requires !Passes(StepAt(c, keys, systemInstruction, userInput, upstream, i))
    ensures var o := Fallback(c, keys, systemInstruction, userInput, upstream, i, last);
            && o.iterations == i + 1
            && (o.result.Success? ==> StepAt(c, keys, systemInstruction, userInput, upstream, i) == Some(Answered(o.result.value)))
            && (o.result.Failure? ==> o.result.error.KeyDecrypt? && c.Decrypt(keys[i]) == Failure(o.result.error.cryptoError))
  {
  }

  /**
   * Outcome o of the loop started at key i is one of the three cases: with k
   * the last key taken, every key from i to k passed, and k answered, failed
   * to decrypt, or was the final key.
   */
  ghost predicate Explained(c: Cipher, keys: seq<string>, systemInstruction: string, userInput: string,
                            upstream: (nat, Request) -> Exchange, i: nat, o: Outcome)
    reads c
  {
    && i < o.iterations <= |keys|
    && var k := o.iterations - 1;
       && PassesOver(c, keys, systemInstruction, userInput, upstream, i, k)
       && (o.result.Success? ==> StepAt(c, keys, systemInstruction, userInput, upstream, k) == Some(Answered(o.result.value)))
       && (o.result.Failure? && o.result.error.KeyDecrypt? ==> c.Decrypt(keys[k]) == Failure(o.result.error.cryptoError))
       && (o.result.Failure? && o.result.error.AllKeysFailed? ==> PassesOver(c, keys, systemInstruction, userInput, upstream, i, |keys|))
  }

  /**
   * The converse: every outcome of the loop is one of the three above. A
   * success is the answer of the last key taken and every earlier key passed;
   * a decryption error comes from the last key taken; exhaustion passed over every key.
   */
  lemma {:induction false} FallbackOutcomes(c: Cipher, keys: seq<string>, systemInstruction: string, userInput: string,
                                            upstream: (nat, Request) -> Exchange, i: nat, last: Option<AttemptError>)
    requires i < |keys|
    ensures Explained(c, keys, systemInstruction, userInput, upstream, i,
                      Fallback(c, keys, systemInstruction, userInput, upstream, i, last))
    decreases |keys| - i
  {
    var st := StepAt(c, keys, systemInstruction, userInput, upstream, i);
    if Passes(st) {
      var last' := Record(last, st.value);
      var o := Fallback(c, keys, systemInstruction, userInput, upstream, i + 1, last');
      assert Fallback(c, keys, systemInstruction, userInput, upstream, i, last) == o;
      if i + 1 < |keys| {
        FallbackOutcomes(c, keys, systemInstruction, userInput, upstream, i + 1, last');
        PassesOverCons(c, keys, systemInstruction, userInput, upstream, i, o.iterations - 1);
        if o.result.Failure? && o.result.error.AllKeysFailed? {
          PassesOverCons(c, keys, systemInstruction, userInput, upstream, i, |keys|);
        }
      } else {
        PassesOverCons(c, keys, systemInstruction, userInput, upstream, i, |keys|);
      }
    } else {
      FallbackStopsAt(c, keys, systemInstruction, userInput, upstream, i, last);
    }
  }

  // The persona.

  const ShapeSlot: string := "{shape}"
  const UserSlot: string := "{user}"
  const QueenName: string := "Hellish Queen"

  // Each piece is written in short literals so that the absence of '{' in it can be checked.
  const PersonaIntro: string :=
    "\nPersona:\nYou are "
  const PersonaLook: string :=
    ", the Hellish Queen \U{2014} "
    + "ruler of all Hell, with blue "
    + "hair, red horns, glowing "
    + "aura, and dark armor. Chat "
    + "casually with "
  const PersonaStyle: string :=
    " on Discord, teasing, "
    + "playful, mischievous, and "
    + "confident. Always reply in "
    + "the same language "
  const PersonaRules: string :=
    " uses, and match any mixed "
    + "languages. Use lowercase, "
    + "slang, abbreviations, and "
    + "casual Discord-style "
    + "chat.\n\nInstructions:\nAnswer "
    + "only as "
  const PersonaLimits: string := LimitsReach + LimitsContext + LimitsTone
  const LimitsReach: string :=
    ". You cannot perform "
    + "real-life actions; you can "
    + "only send chat messages on "
    + "Discord."
  const LimitsContext: string :=
    " Always consider the "
    + "system_message context to "
    + "adapt your replies to the "
    + "user's server, topic, and "
    + "community events."
  const LimitsTone: string :=
    " Be playful, teasing, and "
    + "confident. Reply in a way "
    + "that fits casual Discord "
    + "conversation style.\n"

  /** basePersona: the text with its {shape} and {user} placeholders. */
  const BasePersona: string :=
    PersonaIntro + (ShapeSlot + (PersonaLook + (UserSlot + (PersonaStyle + (UserSlot + (PersonaRules + (ShapeSlot + PersonaLimits)))))))

  /**
   * Filling {shape} in a text of that layout replaces both {shape} slots, keeps
   * both {user} slots and leaves the pieces between them alone.
   */
  lemma FillShape(intro: string, look: string, style: string, rules: string, limits: string, name: string)
    requires '{' !in intro && '{' !in look && '{' !in style && '{' !in rules && '{' !in limits
    ensures ReplaceAll(intro + (ShapeSlot + (look + (UserSlot + (style + (UserSlot + (rules + (ShapeSlot + limits))))))), ShapeSlot, name)
            == intro + (name + (look + (UserSlot + (style + (UserSlot + (rules + (name + limits)))))))
  {
    ReplaceSkipsFree(limits, [], ShapeSlot, name);
    assert limits + [] == limits;
    ReplaceAtOccurrence(limits, ShapeSlot, name);
    var t4 := rules + (ShapeSlot + limits);
    ReplaceSkipsFree(rules, ShapeSlot + limits, ShapeSlot, name);
    var t3 := UserSlot + t4;
    ReplaceSkipsOther(UserSlot, t4, ShapeSlot, name);
    var t2 := style + t3;
    ReplaceSkipsFree(style, t3, ShapeSlot, name);
    var t1 := UserSlot + t2;
    ReplaceSkipsOther(UserSlot, t2, ShapeSlot, name);
    var t0 := look + t1;
    ReplaceSkipsFree(look, t1, ShapeSlot, name);
    ReplaceAtOccurrence(t0, ShapeSlot, name);
    ReplaceSkipsFree(intro, ShapeSlot + t0, ShapeSlot, name);
  }

  // No piece holds a '{', so no placeholder can start inside one; one lemma per piece keeps each check small.
  lemma IntroBraceFree() ensures '{' !in PersonaIntro {}
  lemma LookBraceFree() ensures '{' !in PersonaLook {}
  lemma StyleBraceFree() ensures '{' !in PersonaStyle {}
  lemma RulesBraceFree() ensures '{' !in PersonaRules {}
  lemma ReachBraceFree() ensures '{' !in LimitsReach {}
  lemma ContextBraceFree() ensures '{' !in LimitsContext {}
  lemma ToneBraceFree() ensures '{' !in LimitsTone {}

  /** Both {shape} placeholders become the queen's name; both {user} placeholders and all other text stay. */
  function GetBasePersona(): (r: string)
    ensures r == PersonaIntro + (QueenName + (PersonaLook + (UserSlot + (PersonaStyle + (UserSlot + (PersonaRules + (QueenName + PersonaLimits)))))))
  {
    IntroBraceFree();
    LookBraceFree();
    StyleBraceFree();
    RulesBraceFree();
    ReachBraceFree();
    ContextBraceFree();
    ToneBraceFree();
    FillShape(PersonaIntro, PersonaLook, PersonaStyle, PersonaRules, PersonaLimits, QueenName);
    ReplaceAll(BasePersona, ShapeSlot, QueenName)
  }
}
