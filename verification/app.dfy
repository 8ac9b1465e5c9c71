/** The conversation controller of the `App` component: the transcript, the
    draft text, the pending file and the loading flag, and the handlers that
    change them. A submission is one atomic step whose two asynchronous
    outcomes, the file encoding and the solve call, are inputs; it is split
    into the part before the solve call (`Begin`) and the part after it
    settles (`Settle`), so the state in between can be observed. */
module App {
  import opened Wrappers
  import opened Types
  import JsText
  import GeminiService

  /** The fixed text stored on the model message of a failed solve call. */
  const ApologyText: string :=
    "Xin lỗi, tôi gặp sự cố khi giải bài toán này. Hãy thử lại hoặc cung cấp hình ảnh rõ hơn."

  const ImagePrefix: string := "image/"

  datatype State = State(messages: seq<ChatMessage>, input: string, selected: Option<File>, isLoading: bool)

  /** The state the component mounts with. */
  const Initial: State := State([], "", None, false)

  /** What `fileToBase64` settled to: the base64 text, or a rejection. */
  datatype Encoding = Encoded(base64: string) | EncodeFailed

  /** The arguments of the one `solveMathProblem` call a submission makes. */
  datatype SolveCall = SolveCall(prompt: string, fileBase64: Option<string>, mimeType: Option<string>)

  /** How far a submission got before the solve call: stopped by the guard,
      aborted by an encoding failure, or started with the state shown while
      the call is in flight and the call itself. */
  datatype Begun = Ignored | Aborted | Started(pending: State, call: SolveCall)

  /** A whole submission: the final state and the solve call, if one was made. */
  datatype Submitted = Submitted(state: State, call: Option<SolveCall>)

  type SolveResult = Result<MathResponseData, GeminiService.SolveError>

  /** The file input's change handler: the first chosen file replaces the
      pending one; an empty (or absent) file list changes nothing. */
  function SelectFiles(s: State, files: seq<File>): (r: State)
    ensures |files| == 0 ==> r == s
    ensures |files| > 0 ==> r.selected == Some(files[0])
    ensures r.messages == s.messages && r.input == s.input && r.isLoading == s.isLoading
  {
    if |files| > 0 then s.(selected := Some(files[0])) else s
  }

  /** The clear button: drops the pending file and nothing else. */
  function ClearFile(s: State): (r: State)
    ensures r.selected.None?
    ensures r.messages == s.messages && r.input == s.input && r.isLoading == s.isLoading
  {
    s.(selected := None)
  }

  /** The textarea's change handler. */
  function EditInput(s: State, text: string): (r: State)
    ensures r.input == text
    ensures r.messages == s.messages && r.selected == s.selected && r.isLoading == s.isLoading
  {
    s.(input := text)
  }

  /** The submit guard: nothing to send (blank draft and no file), or a
      request already in flight. */
  predicate Blocked(s: State): (b: bool)
    ensures b <==> (JsText.AllWhitespace(s.input) && s.selected.None?) || s.isLoading
  {
    JsText.BlankIffAllWhitespace(s.input);
    (JsText.IsBlank(s.input) && s.selected.None?) || s.isLoading
  }

  /** The user message snapshot. The preview `image` is the encoded file
      only for MIME types starting with `image/`. */
  function UserMessage(id: string, input: string, file: Option<File>, fileBase64: Option<string>): (m: ChatMessage)
    ensures m.role == User && m.id == id && m.text == Some(input)
    ensures m.fileName.Some? <==> file.Some?
    ensures m.mimeType.Some? <==> file.Some?
    ensures file.Some? ==> m.fileName.value == file.value.name && m.mimeType.value == file.value.mimeType
    ensures m.image.Some? ==> m.image == fileBase64
    ensures fileBase64.Some? ==> (m.image.Some? <==> file.Some? && JsText.StartsWith(file.value.mimeType, ImagePrefix))
    ensures m.data.None? && m.isError.None?
  {
    var isImage := file.Some? && JsText.StartsWith(file.value.mimeType, ImagePrefix);
    ChatMessage(
      id, User, Some(input),
      if isImage then fileBase64 else None,
      if file.Some? then Some(file.value.mimeType) else None,
      if file.Some? then Some(file.value.name) else None,
      None, None)
  }

  /** `userMessage.text || ""`: a defined text is passed on unchanged,
      including the empty one; only an undefined text becomes "". */
  function PromptOf(m: ChatMessage): (prompt: string)
    ensures m.text.Some? ==> prompt == m.text.value
    ensures m.text.None? ==> prompt == ""
  {
    if JsText.Truthy(m.text) then m.text.value else ""
  }

  /** `handleSubmit` up to the solve call: the guard, the encoding of the
      pending file, the user message, the reset of the inputs and the
      loading flag. */
  function Begin(s: State, encoding: Encoding, userId: string): (b: Begun)
    ensures b.Ignored? <==> Blocked(s)
    ensures b.Aborted? <==> !Blocked(s) && s.selected.Some? && encoding.EncodeFailed?
    // one user message is appended, carrying the untrimmed draft
    ensures b.Started? ==> |b.pending.messages| == |s.messages| + 1
                           && b.pending.messages[..|s.messages|] == s.messages
    ensures b.Started? ==> var u := b.pending.messages[|s.messages|];
              && u.role == User && u.id == userId && u.text == Some(s.input)
              && u.data.None? && u.isError.None?
              && (u.fileName.Some? <==> s.selected.Some?) && (u.mimeType.Some? <==> s.selected.Some?)
              && (s.selected.Some? ==> u.fileName == Some(s.selected.value.name)
                                       && u.mimeType == Some(s.selected.value.mimeType))
              && (u.image.Some? <==> s.selected.Some? && JsText.StartsWith(s.selected.value.mimeType, ImagePrefix))
              && (u.image.Some? ==> u.image.value == encoding.base64)
    // the inputs are cleared and the request is marked in flight
    ensures b.Started? ==> b.pending.input == "" && b.pending.selected.None? && b.pending.isLoading
    // the solve call gets the draft and, when a file was pending, its encoding and type
    ensures b.Started? ==> b.call.prompt == s.input
    ensures b.Started? ==> (b.call.fileBase64.Some? <==> s.selected.Some?)
                           && (b.call.mimeType.Some? <==> s.selected.Some?)
    ensures b.Started? && s.selected.Some? ==>
              b.call.fileBase64 == Some(encoding.base64) && b.call.mimeType == Some(s.selected.value.mimeType)
  {
    if Blocked(s) then Ignored
    else if s.selected.Some? && encoding.EncodeFailed? then Aborted
    else
      var fileBase64 := if s.selected.Some? then Some(encoding.base64) else None;
      var mimeType := if s.selected.Some? then Some(s.selected.value.mimeType) else None;
      var user := UserMessage(userId, s.input, s.selected, fileBase64);
      var pending := State(s.messages + [user], "", None, true);
      Started(pending, SolveCall(PromptOf(user), fileBase64, mimeType))
  }

  /** The model message for a settled solve call. */
  function BotMessage(id: string, result: SolveResult): (m: ChatMessage)
    ensures m.role == Model && m.id == id
    ensures m.image.None? && m.mimeType.None? && m.fileName.None?
    ensures result.Success? ==> m.data == Some(result.value) && m.isError.None? && m.text.None?
    ensures result.Failure? ==> m.data.None? && m.isError == Some(true) && m.text == Some(ApologyText)
  {
    match result
    case Success(data) => ChatMessage(id, Model, None, None, None, None, Some(data), None)
    case Failure(_) => ChatMessage(id, Model, Some(ApologyText), None, None, None, None, Some(true))
  }

  /** `handleSubmit` after the solve call settles: append the answer or the
      apology, then (the `finally` block) clear the loading flag. The draft
      and the pending file are left as they are. */
  function Settle(pending: State, result: SolveResult, botId: string): (r: State)
    ensures |r.messages| == |pending.messages| + 1 && r.messages[..|pending.messages|] == pending.messages
    ensures r.messages[|pending.messages|] == BotMessage(botId, result)
    ensures !r.isLoading
    ensures r.input == pending.input && r.selected == pending.selected
  {
    pending.(messages := pending.messages + [BotMessage(botId, result)], isLoading := false)
  }

  /** A whole `handleSubmit`: `Begin`, then `Settle` with the solve call's
      outcome when the call was made. */
  function Submit(s: State, encoding: Encoding, result: SolveResult, userId: string, botId: string): (o: Submitted)
    // no call, and no change at all, when the guard or the encoding stops it
    ensures o.call.None? <==> Blocked(s) || (s.selected.Some? && encoding.EncodeFailed?)
    ensures o.call.None? ==> o.state == s
    // otherwise exactly two messages are appended, user then model
    ensures o.call.Some? ==> |o.state.messages| == |s.messages| + 2
                             && o.state.messages[..|s.messages|] == s.messages
                             && o.state.messages[|s.messages|].role == User
                             && o.state.messages[|s.messages| + 1].role == Model
    ensures o.call.Some? ==> o.call.value.prompt == s.input
    // and the cycle ends idle with empty inputs
    ensures o.call.Some? ==> !o.state.isLoading && o.state.input == "" && o.state.selected.None?
  {
    match Begin(s, encoding, userId)
    case Ignored => Submitted(s, None)
    case Aborted => Submitted(s, None)
    case Started(pending, call) =>
      var r := Settle(pending, result, botId);
      assert r.messages[..|s.messages|] == pending.messages[..|s.messages|];
      Submitted(r, Some(call))
  }

  /** A user-visible event of the component. */
  datatype Event =
    | Edit(text: string)
    | Select(files: seq<File>)
    | Clear
    | Send(encoding: Encoding, result: SolveResult, userId: string, botId: string)

  /** The handler an event reaches. No handler removes or rewrites a
      transcript entry, and none appends more than one exchange. */
  function Step(s: State, e: Event): (r: State)
    ensures |s.messages| <= |r.messages| <= |s.messages| + 2 && r.messages[..|s.messages|] == s.messages
  {
    match e
    case Edit(text) => EditInput(s, text)
    case Select(files) => SelectFiles(s, files)
    case Clear => ClearFile(s)
    case Send(encoding, result, userId, botId) => Submit(s, encoding, result, userId, botId).state
  }

  /** The events applied in order. The transcript is append-only: the old
      entries stay, unchanged and in place, and each event adds at most two. */
  function Run(s: State, events: seq<Event>): (r: State)
    ensures |s.messages| <= |r.messages| <= |s.messages| + 2 * |events|
    ensures r.messages[..|s.messages|] == s.messages
    decreases |events|
  {
    if events == [] then s else Run(Step(s, events[0]), events[1..])
  }

  /** A user message as `Begin` builds it: text always present, no answer,
      and a preview only together with its MIME type and file name. */
  predicate IsUserEntry(m: ChatMessage) {
    && m.role == User && m.text.Some? && m.data.None? && m.isError.None?
    && (m.image.Some? ==> m.mimeType.Some? && m.fileName.Some?)
  }

  /** A model message as `Settle` builds it: either the structured answer
      or the error flag with the apology text, never both. */
  predicate IsModelEntry(m: ChatMessage) {
    && m.role == Model && m.image.None? && m.mimeType.None? && m.fileName.None?
    && ((m.data.Some? && m.isError.None? && m.text.None?)
        || (m.data.None? && m.isError == Some(true) && m.text == Some(ApologyText)))
  }

  /** The transcript is a list of exchanges: user and model messages
      alternate, starting with a user message and ending with a model one. */
  predicate IsTranscript(ms: seq<ChatMessage>) {
    && |ms| % 2 == 0
    && forall i :: 0 <= i < |ms| ==> if i % 2 == 0 then IsUserEntry(ms[i]) else IsModelEntry(ms[i])
  }

  /** Between events the component is idle and its transcript well formed. */
  predicate Idle(s: State) {
    !s.isLoading && IsTranscript(s.messages)
  }

  lemma InitialIsIdle()
    ensures Idle(Initial)
  {
  }

  /** A submission that made its call appended exactly the user message
      `Begin` built and the model message `Settle` built. */
  lemma SubmitAppends(s: State, encoding: Encoding, result: SolveResult, userId: string, botId: string)
    requires Begin(s, encoding, userId).Started?
    ensures var b := Begin(s, encoding, userId);
            Submit(s, encoding, result, userId, botId).state.messages
            == s.messages + [b.pending.messages[|s.messages|], BotMessage(botId, result)]
  {
  }

  /** One submission keeps the component idle: either nothing happened or a
      complete user/model exchange was appended and the flag cleared. */
  lemma SubmitKeepsIdle(s: State, encoding: Encoding, result: SolveResult, userId: string, botId: string)
    requires Idle(s)
    ensures Idle(Submit(s, encoding, result, userId, botId).state)
  {
    var b := Begin(s, encoding, userId);
    if b.Started? {
      SubmitAppends(s, encoding, result, userId, botId);
      AppendExchange(s.messages, b.pending.messages[|s.messages|], BotMessage(botId, result));
    }
  }

  /** Appending one user entry and one model entry extends a transcript. */
  lemma AppendExchange(ms: seq<ChatMessage>, user: ChatMessage, bot: ChatMessage)
    requires IsTranscript(ms) && IsUserEntry(user) && IsModelEntry(bot)
    ensures IsTranscript(ms + [user, bot])
  {
  }

  /** Every sequence of events from an idle state ends idle: the loading
      flag is false again and the transcript alternates user/model. */
  lemma {:induction false} RunKeepsIdle(s: State, events: seq<Event>)
    requires Idle(s)
    ensures Idle(Run(s, events))
    decreases |events|
  {
    if events != [] {
      var e := events[0];
      if e.Send? {
        SubmitKeepsIdle(s, e.encoding, e.result, e.userId, e.botId);
      }
      RunKeepsIdle(Step(s, e), events[1..]);
    }
  }

  /** Ids of distinct transcript entries differ. */
  predicate DistinctIds(ms: seq<ChatMessage>) {
    forall i, j :: 0 <= i < j < |ms| ==> ms[i].id != ms[j].id
  }

  /** With two fresh ids, a submission keeps the transcript's ids distinct. */
  lemma SubmitKeepsIdsDistinct(s: State, encoding: Encoding, result: SolveResult, userId: string, botId: string)
    requires DistinctIds(s.messages)
    requires userId != botId
    requires forall i :: 0 <= i < |s.messages| ==> s.messages[i].id != userId && s.messages[i].id != botId
    ensures DistinctIds(Submit(s, encoding, result, userId, botId).state.messages)
  {
  }

  /** Selecting a file and then clearing it leaves no trace: the state is
      what clearing alone would give. */
  lemma ClearUndoesSelect(s: State, files: seq<File>)
    ensures ClearFile(SelectFiles(s, files)) == ClearFile(s)
  {
  }

  /** After the clear button, the next submission sends no attachment and
      its user message carries no file. */
  lemma ClearedFileIsNotSent(s: State, encoding: Encoding, userId: string)
    requires Begin(ClearFile(s), encoding, userId).Started?
    ensures var b := Begin(ClearFile(s), encoding, userId);
            b.call.fileBase64.None? && b.call.mimeType.None?
            && b.pending.messages[|s.messages|].fileName.None?
            && b.pending.messages[|s.messages|].image.None?
  {
  }
}
