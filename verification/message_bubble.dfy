/** The `MessageBubble` component as a pure mapping from one transcript
    entry and the bubble's active tab to the variant it renders. JSX,
    styling and the math typesetting of section contents are not part of
    the model; a section's `content` is the string handed to the renderer. */
module MessageBubble {
  import opened Wrappers
  import opened Types
  import JsText

  /** The fixed text of the error panel. The message's own `text` is not shown. */
  const ErrorNotice: string := "Đã xảy ra lỗi khi xử lý yêu cầu. Vui lòng thử lại."

  datatype Tab = Theory | Hint | Solution

  /** The tabs in the order their buttons and sections appear. */
  const TabOrder: seq<Tab> := [Theory, Hint, Solution]

  /** The `useState` initial value of every bubble. */
  const InitialTab: Tab := Theory

  /** A tab button's click handler as a step of the bubble's tab state:
      `setActiveTab` with the button's own tab. The previously active tab
      plays no part. */
  function ClickTab(active: Tab, button: Tab): Tab {
    button
  }

  /** The bubble's active tab after its buttons were clicked in the order
      `clicks`, starting from the initial tab. */
  function ActiveTab(clicks: seq<Tab>): (t: Tab)
    ensures clicks == [] ==> t == InitialTab
    ensures clicks != [] ==> t == clicks[|clicks| - 1]
    decreases |clicks|
  {
    if clicks == [] then InitialTab
    else ClickTab(ActiveTab(clicks[..|clicks| - 1]), clicks[|clicks| - 1])
  }

  datatype TabButton = TabButton(tab: Tab, highlighted: bool)

  /** A content section: its tab, the string given to the math renderer and
      whether it has the `block` class (visible) rather than `hidden`. */
  datatype Section = Section(tab: Tab, content: string, visible: bool)

  /** The three shapes a bubble takes. */
  datatype View =
    | UserBubble(preview: Option<string>, fileChip: Option<string>, text: Option<string>)
    | ErrorPanel(notice: string)
    | TabbedPanel(buttons: seq<TabButton>, sections: seq<Section>)

  /** A value interpolated into a template literal: `undefined` prints as
      the word itself. */
  function Interpolate(o: Option<string>): string {
    match o
    case Some(v) => v
    case None => "undefined"
  }

  /** The `src` of the image preview. Its fields sit at fixed offsets, so
      the MIME type text and the payload can be read back from it. */
  function DataUrl(mimeType: Option<string>, payload: string): (url: string)
    ensures var m := Interpolate(mimeType); var k := 5 + |m|;
            && |url| == k + 8 + |payload|
            && url[..5] == "data:" && url[5..k] == m && url[k..k + 8] == ";base64," && url[k + 8..] == payload
  {
    "data:" + Interpolate(mimeType) + ";base64," + payload
  }

  /** The field of the answer shown under a tab. */
  function Content(d: MathResponseData, t: Tab): string {
    match t
    case Theory => d.theory
    case Hint => d.hint
    case Solution => d.solution
  }

  function Buttons(active: Tab): seq<TabButton> {
    [TabButton(Theory, active == Theory), TabButton(Hint, active == Hint), TabButton(Solution, active == Solution)]
  }

  function Sections(d: MathResponseData, active: Tab): seq<Section> {
    [ Section(Theory, d.theory, active == Theory),
      Section(Hint, d.hint, active == Hint),
      Section(Solution, d.solution, active == Solution) ]
  }

  /** The bubble for message `m` while `active` is its selected tab. */
  function Render(m: ChatMessage, active: Tab): (v: View)
    // any role but the user's takes the model branch; an error flag wins over data
    ensures v.UserBubble? <==> m.role == User
    ensures v.ErrorPanel? <==> m.role != User && m.isError == Some(true)
    ensures v.ErrorPanel? ==> v.notice == ErrorNotice
    // user bubble: preview iff an image payload, chip iff a file name but no preview
    ensures v.UserBubble? ==> (v.preview.Some? <==> JsText.Truthy(m.image))
    ensures v.UserBubble? && v.preview.Some? ==>
              v.preview.value == DataUrl(m.mimeType, m.image.value)
              && JsText.StartsWith(v.preview.value, "data:")
              && |m.image.value| <= |v.preview.value|
              && v.preview.value[|v.preview.value| - |m.image.value|..] == m.image.value
    ensures v.UserBubble? ==> (v.fileChip.Some? <==> JsText.Truthy(m.fileName) && !JsText.Truthy(m.image))
    ensures v.UserBubble? && v.fileChip.Some? ==> v.fileChip == m.fileName
    ensures v.UserBubble? ==> !(v.preview.Some? && v.fileChip.Some?)
    ensures v.UserBubble? ==> v.text == m.text
    // tabbed panel: three buttons in order, exactly the active one highlighted
    ensures v.TabbedPanel? ==>
              |v.buttons| == 3
              && forall i :: 0 <= i < 3 ==> v.buttons[i].tab == TabOrder[i]
                                            && (v.buttons[i].highlighted <==> TabOrder[i] == active)
    // sections only with data, each showing its field, visible iff active
    ensures v.TabbedPanel? && m.data.None? ==> v.sections == []
    ensures v.TabbedPanel? && m.data.Some? ==>
              |v.sections| == 3
              && forall i :: 0 <= i < 3 ==> v.sections[i].tab == TabOrder[i]
                                            && v.sections[i].content == Content(m.data.value, TabOrder[i])
                                            && (v.sections[i].visible <==> TabOrder[i] == active)
  {
    if m.role == User then
      var preview := if JsText.Truthy(m.image) then Some(DataUrl(m.mimeType, m.image.value)) else None;
      var chip := if JsText.Truthy(m.fileName) && !JsText.Truthy(m.image) then m.fileName else None;
      UserBubble(preview, chip, m.text)
    else if m.isError == Some(true) then
      ErrorPanel(ErrorNotice)
    else
      TabbedPanel(Buttons(active), if m.data.Some? then Sections(m.data.value, active) else [])
  }

  /** The sections a reader can see. */
  function Visible(sections: seq<Section>): (r: seq<Section>)
    ensures |r| <= |sections|
    ensures forall i :: 0 <= i < |r| ==> r[i].visible && r[i] in sections
    ensures forall i :: 0 <= i < |sections| && sections[i].visible ==> sections[i] in r
  {
    if sections == [] then []
    else (if sections[0].visible then [sections[0]] else []) + Visible(sections[1..])
  }

  /** With an answer present exactly one section is visible: the active
      tab's, showing that tab's field of the answer. */
  lemma ExactlyOneSectionVisible(m: ChatMessage, active: Tab)
    requires m.role == Model && m.isError != Some(true) && m.data.Some?
    ensures Render(m, active).TabbedPanel?
    ensures Visible(Render(m, active).sections) == [Section(active, Content(m.data.value, active), true)]
  {
    var d := m.data.value;
    var ss := Sections(d, active);
    assert Render(m, active).sections == ss;
    assert ss[1..][1..][1..] == [];
    assert Visible(ss[1..][1..]) == if active == Solution then [ss[2]] else [];
    assert Visible(ss[1..]) == (if active == Hint then [ss[1]] else []) + Visible(ss[1..][1..]);
  }

  /** A fresh bubble opens on the theory section. */
  lemma FreshBubbleShowsTheory(m: ChatMessage)
    requires m.role == Model && m.isError != Some(true) && m.data.Some?
    ensures Visible(Render(m, ActiveTab([])).sections) == [Section(Theory, m.data.value.theory, true)]
  {
    ExactlyOneSectionVisible(m, ActiveTab([]));
  }

  /** After any clicks, the section shown is the one of the last button
      clicked, whatever came before it. */
  lemma ClickShowsItsSection(m: ChatMessage, clicks: seq<Tab>)
    requires m.role == Model && m.isError != Some(true) && m.data.Some?
    requires clicks != []
    ensures var last := clicks[|clicks| - 1];
            Visible(Render(m, ActiveTab(clicks)).sections) == [Section(last, Content(m.data.value, last), true)]
  {
    ExactlyOneSectionVisible(m, ActiveTab(clicks));
  }

  /** A non-error model message without an answer shows the tab bar and no
      section at all. */
  lemma NoDataNoSection(m: ChatMessage, active: Tab)
    requires m.role == Model && m.isError != Some(true) && m.data.None?
    ensures Render(m, active).TabbedPanel? && Visible(Render(m, active).sections) == []
  {
  }

  /** The error panel does not depend on the stored text, the answer or the
      active tab. */
  lemma ErrorPanelIgnoresContent(m: ChatMessage, m': ChatMessage, active: Tab, active': Tab)
    requires m.role == Model && m.isError == Some(true)
    requires m'.role == Model && m'.isError == Some(true)
    ensures Render(m, active) == Render(m', active') == ErrorPanel(ErrorNotice)
  {
  }
}
