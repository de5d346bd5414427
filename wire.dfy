/**
 * The data blob the conversational fulfilment attaches to an `HtmlResponse`
 * and the canvas receives in `onUpdate`: a `state` tag and, for some tags, the
 * mask to display. Either property may be missing from a message.
 */
module Wire {
  import opened Options

  /** The character the mask shows for a letter not yet revealed. */
  const Placeholder: char := '_'

  datatype CanvasData = CanvasData(state: Option<string>, wordToDisplay: Option<string>)
}
