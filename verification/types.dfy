/** The records of the chat application: the two speaker roles, the
    structured tutoring answer and one transcript entry. Every optional
    property of the TypeScript interface becomes an `Option`. */
module Types {
  import opened Wrappers

  /** Who wrote a message: the student or the language model. */
  datatype Role = User | Model

  /** The structured answer: background theory, a short hint and the full
      worked solution, each a string that may embed LaTeX markup. */
  datatype MathResponseData = MathResponseData(theory: string, hint: string, solution: string)

  /** One transcript entry. `image` holds base64 file content and is only
      set on user messages for image files; `data` and `isError` are only
      set on model messages. */
  datatype ChatMessage = ChatMessage(
    id: string,
    role: Role,
    text: Option<string>,
    image: Option<string>,
    mimeType: Option<string>,
    fileName: Option<string>,
    data: Option<MathResponseData>,
    isError: Option<bool>)

  /** A browser `File` as the application sees it: its name and its declared
      MIME type (the empty string when the browser does not know it). */
  datatype File = File(name: string, mimeType: string)
}
