/** Properties of the application as a whole: a submission feeding the
    request builder, and the bubbles the transcript renders into. */
module Session {
  import opened Wrappers
  import opened Types
  import JsText
  import GeminiService
  import App
  import MessageBubble

  /** The request a started submission sends when the key is configured:
      the draft (or the fallback prompt) as last part, preceded by the file
      exactly when a file was pending and both its encoding and its declared
      type are non-empty. A file whose type the browser leaves empty is
      shown in the transcript but not sent to the model. */
  lemma StartedSubmissionRequest(s: App.State, base64: string, userId: string, apiKey: Option<string>,
                                 generate: GeminiService.Request -> GeminiService.Transport,
                                 parse: string -> Option<MathResponseData>)
    requires App.Begin(s, App.Encoded(base64), userId).Started?
    requires JsText.Truthy(apiKey)
    ensures var c := App.Begin(s, App.Encoded(base64), userId).call;
            var run := GeminiService.Solve(apiKey, c.prompt, c.fileBase64, c.mimeType, generate, parse);
            && run.sent.Some?
            && var parts := run.sent.value.parts;
            && parts[|parts| - 1] == GeminiService.TextPart(GeminiService.FinalPrompt(s.input))
            && (|parts| == 2 <==> s.selected.Some? && base64 != "" && s.selected.value.mimeType != "")
            && (|parts| == 2 ==> parts[0] == GeminiService.InlineData(base64, s.selected.value.mimeType))
  {
  }

  /** An image sent with an empty draft: the user message previews it and
      names it, and the parts list is the image followed by the fallback
      prompt. */
  lemma ImageWithoutText(s: App.State, f: File, base64: string, userId: string)
    requires !s.isLoading && s.input == "" && s.selected == Some(f)
    requires JsText.StartsWith(f.mimeType, App.ImagePrefix) && base64 != ""
    ensures var b := App.Begin(s, App.Encoded(base64), userId);
            && b.Started?
            && b.pending.messages[|s.messages|].image == Some(base64)
            && b.pending.messages[|s.messages|].fileName == Some(f.name)
            && GeminiService.BuildParts(b.call.prompt, b.call.fileBase64, b.call.mimeType)
               == [GeminiService.InlineData(base64, f.mimeType), GeminiService.TextPart(GeminiService.FallbackPrompt)]
  {
  }

  /** A failed solve call, whatever the reason, ends the cycle idle with the
      error panel as the newest bubble. */
  lemma FailureShowsErrorPanel(s: App.State, encoding: App.Encoding, error: GeminiService.SolveError,
                               userId: string, botId: string, active: MessageBubble.Tab)
    requires !App.Blocked(s) && (s.selected.Some? ==> encoding.Encoded?)
    ensures var o := App.Submit(s, encoding, Failure(error), userId, botId);
            && !o.state.isLoading
            && MessageBubble.Render(o.state.messages[|s.messages| + 1], active)
               == MessageBubble.ErrorPanel(MessageBubble.ErrorNotice)
  {
  }

  /** In an idle component every user bubble's preview names the real MIME
      type of its file, and every model bubble is either the error panel or
      a tabbed panel showing exactly one section, under any active tab. */
  lemma TranscriptRendersCleanly(s: App.State, i: nat, active: MessageBubble.Tab)
    requires App.Idle(s) && i < |s.messages|
    ensures var m := s.messages[i]; var v := MessageBubble.Render(m, active);
            if i % 2 == 0 then
              v.UserBubble?
              && (v.preview.Some? ==> m.mimeType.Some? && v.preview.value == MessageBubble.DataUrl(m.mimeType, m.image.value))
            else
              v.ErrorPanel? || (v.TabbedPanel? && |MessageBubble.Visible(v.sections)| == 1)
  {
    var m := s.messages[i];
    if i % 2 == 1 && m.isError != Some(true) {
      MessageBubble.ExactlyOneSectionVisible(m, active);
    }
  }
}
