/** The content script's message listener: it removes captions, sends the first selected
    images of the page to the service worker, acquires one image on request, and writes
    the caption for a classified image over every image with that URL. */
module ContentScript {
  import opened Wrappers
  import opened Messages
  import opened Captions
  import opened ImageAcquisition
  import opened Dom

  /** How many selected images one `CLASSIFY_FIRST_N_IMAGES` request sends. */
  const FirstN: nat := 10

  /** The images a `CLASSIFY_FIRST_N_IMAGES` request sends: the first ten elements the
      page's selector matches, in document order. */
  function FirstTargets(s: seq<Element>, isTarget: Element -> bool): (r: seq<Element>)
    ensures |r| == if |Matching(s, isTarget)| < FirstN then |Matching(s, isTarget)| else FirstN
    ensures r == Matching(s, isTarget)[..|r|]
    ensures forall k :: 0 <= k < |r| ==> isTarget(r[k]) && r[k] in s
  {
    var m := Matching(s, isTarget);
    if |m| <= FirstN then m else m[..FirstN]
  }

  /** The `ANALYZE_IMAGE` message sent for one target once its image has settled. */
  function AnalyzeRequest(target: Element, fetch: string -> LoadOutcome): RuntimeMessage {
    AnalyzeImage(ImageDataFromSrc(fetch(target.src)), target.src)
  }

  /** One `ANALYZE_IMAGE` message per target, in the targets' order. */
  function AnalyzeRequests(targets: seq<Element>, fetch: string -> LoadOutcome): seq<RuntimeMessage> {
    seq(|targets|, k requires 0 <= k < |targets| => AnalyzeRequest(targets[k], fetch))
  }

  /** The content script of one tab. */
  class ContentScript {
    const document: Document
    /** The messages sent to the service worker with `chrome.runtime.sendMessage`. */
    var sent: seq<RuntimeMessage>

    ghost predicate Valid()
      reads this, document
    {
      document.Valid()
    }

    constructor (document: Document)
      requires document.Valid()
      ensures Valid() && this.document == document && sent == []
    {
      this.document := document;
      sent := [];
    }

    /** The `CLASSIFY_FIRST_N_IMAGES` case: each target image is acquired and sent for
        analysis with its `src`, a `null` image included. `fetch` says how the host
        settles each image URL. */
    method ClassifyFirstNImages(fetch: string -> LoadOutcome, isTarget: Element -> bool)
      modifies this`sent
      ensures sent == old(sent) + AnalyzeRequests(FirstTargets(document.nodes, isTarget), fetch)
    {
      var targets := FirstTargets(document.nodes, isTarget);
      for j := 0 to |targets|
        invariant sent == old(sent) + AnalyzeRequests(targets[..j], fetch)
      {
        var src := targets[j].src;
        assert targets[..j + 1] == targets[..j] + [targets[j]];
        sent := sent + [AnalyzeImage(ImageDataFromSrc(fetch(src)), src)];
      }
      assert targets[..|targets|] == targets;
    }

    /** The listener for messages from the service worker and the popup. `message` is
        missing when the listener is called with a falsy message; `settings` is what the
        settings store holds; `fetch` says how the host settles each image URL;
        `isTarget` is the page's image selector. The reply is what `sendResponse` gets. */
    method OnMessage(message: Option<PageMessage>, settings: Settings,
                     fetch: string -> LoadOutcome, isTarget: Element -> bool)
      returns (reply: Reply)
      requires Valid()
      modifies this, document
      ensures Valid()
      ensures reply == match message
        case Some(GetImageData(url)) => ImageDataReply(ImageDataFromSrc(fetch(url)))
        case _ => NoReply
      ensures sent == match message
        case Some(ClassifyFirstNImages) =>
          old(sent) + AnalyzeRequests(FirstTargets(old(document.nodes), isTarget), fetch)
        case _ => old(sent)
      ensures document.nodes == match message
        case Some(RemoveExtensionTexts) => RemoveCaptions(old(document.nodes))
        case Some(AddPredictionToImages(url, predictions)) =>
          var caption := TextContentFromPrediction(predictions, settings);
          // An empty URL and a missing list are falsy; an empty list is not.
          if url != "" && predictions.Some? && caption.Success?
          then WrapAll(old(document.nodes), url, caption.value)
          else old(document.nodes)
        case _ => old(document.nodes)
    {
      reply := NoReply;
      if message.None? {
        return;
      }
      match message.value
      case RemoveExtensionTexts =>
        document.RemoveTextElements();
      case ClassifyFirstNImages =>
        ClassifyFirstNImages(fetch, isTarget);
      case GetImageData(url) =>
        reply := ImageDataReply(ImageDataFromSrc(fetch(url)));
      case AddPredictionToImages(url, predictions) =>
        if url != "" && predictions.Some? {
          // Each image awaits its own caption; all read the same predictions and settings,
          // and one that throws leaves its image as it was.
          var caption := TextContentFromPrediction(predictions, settings);
          if caption.Success? {
            document.AddTextToImagesWithSrc(url, caption.value);
          }
        }
      case UnknownPageAction(_) =>
    }
  }

  /** A `CLASSIFY_FIRST_N_IMAGES` request sends at most ten messages, one per target and
      in the targets' order, each carrying the target's `src` and what acquiring it gave. */
  lemma AnalyzeRequestsShape(s: seq<Element>, isTarget: Element -> bool, fetch: string -> LoadOutcome)
    ensures var targets := FirstTargets(s, isTarget);
      var requests := AnalyzeRequests(targets, fetch);
      |requests| == |targets| <= FirstN &&
      forall k :: 0 <= k < |requests| ==>
        requests[k].AnalyzeImage? && requests[k].src == targets[k].src &&
        requests[k].imageData == ImageDataFromSrc(fetch(targets[k].src))
  {
  }
}
