/** The values that cross the boundary between the page (content script) and the
    background (service worker): predictions, pixel buffers and the messages of the
    extension's vocabulary. */
module Messages {
  import opened Wrappers

  /** One channel value of a pixel buffer, as a Uint8ClampedArray holds it. */
  newtype byte = x: int | 0 <= x < 256

  /** One entry of the classifier's ranked output. */
  datatype Prediction = Prediction(className: string, probability: real)

  /** The plain object the page sends back for an image: its channel values, row by row,
      four per pixel, and its size. */
  datatype PixelBuffer = PixelBuffer(data: seq<byte>, height: nat, width: nat)

  /** Identifier of a browser tab. */
  type TabId = nat

  /** Messages the content script of a tab listens for. */
  datatype PageMessage =
    | RemoveExtensionTexts
    | ClassifyFirstNImages
    | GetImageData(url: string)
      /** `predictions` is missing when the message has no such member. */
    | AddPredictionToImages(url: string, predictions: Option<seq<Prediction>>)
      /** Any action other than the four above. */
    | UnknownPageAction(action: string)

  /** What the content script hands back through `sendResponse`. */
  datatype Reply = NoReply | ImageDataReply(imageData: Option<PixelBuffer>)

  /** Messages the service worker listens for. `imageData` is `null` when the page could
      not acquire the image. */
  datatype RuntimeMessage =
    | AnalyzeImage(imageData: Option<PixelBuffer>, src: string)
    | UnknownRuntimeAction(action: string)

  /** A message sent to the content script of one tab. */
  datatype TabMessage = TabMessage(tab: TabId, message: PageMessage)
}
