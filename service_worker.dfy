/** The service worker: the single image classifier with its asynchronously loaded model,
    the retry of requests that arrive before the model is there, and the two entry points
    that feed it (the context-menu click and the `ANALYZE_IMAGE` message). */
module ServiceWorker {
  import opened Wrappers
  import opened Messages
  import ImageAcquisition

  const TopKPredictions: nat := 2
  const FiveSecondsInMs: nat := 5000

  /** What `new ImageData(data, width, height)` holds. */
  datatype ImageData = ImageData(data: seq<byte>, width: nat, height: nat)

  /** `new ImageData(new Uint8ClampedArray(p.data), p.width, p.height)`: the host's
      constructor throws (none here) unless the data holds four channels for each pixel of
      a non-empty `width` × `height` image. Channel values are already bytes, so the
      clamping copy keeps them. */
  function ImageDataFrom(p: PixelBuffer): (r: Option<ImageData>)
    ensures r.Some? <==> p.width > 0 && p.height > 0 && |p.data| == 4 * p.width * p.height
    ensures r.Some? ==> r.value.data == p.data && r.value.width == p.width && r.value.height == p.height
  {
    if p.width > 0 && p.height > 0 && |p.data| == 4 * p.width * p.height
    then Some(ImageData(p.data, p.width, p.height))
    else None
  }

  /** Every buffer the content script acquires rebuilds into an image of 224 × 224. */
  lemma AcquiredBufferRebuilds(outcome: ImageAcquisition.LoadOutcome)
    requires ImageAcquisition.ImageDataFromSrc(outcome).Some?
    ensures var p := ImageAcquisition.ImageDataFromSrc(outcome).value;
      ImageDataFrom(p) == Some(ImageData(p.data, ImageAcquisition.ImageSize, ImageAcquisition.ImageSize))
  {
    var p := ImageAcquisition.ImageDataFromSrc(outcome).value;
    assert |p.data| == 4 * p.width * p.height by {
      assert ImageAcquisition.ImageSize * ImageAcquisition.ImageSize * ImageAcquisition.Channels
             == 4 * 224 * 224;
    }
  }

  /** The loaded model's `classify(image, topK)`: the ranked predictions, best first. */
  type Classify = (ImageData, nat) -> seq<Prediction>

  /** How the asynchronous `load` of the model settles. */
  datatype ModelLoad = Resolved(classify: Classify) | Rejected

  /** Where the model's load stands; the source keeps no such field, only `model`. */
  datatype LoadPhase = Unloaded | Loading | Ready | Failed

  /** A pending `setTimeout` that calls `analyzeImageAndSendMessage` again with these
      arguments after `delayMs`. */
  datatype Retry = Retry(imageData: ImageData, url: string, tab: TabId, delayMs: nat)

  class ImageClassifier {
    /** `this.model`: unset until `load` resolves. */
    var model: Option<Classify>
    /** Pending timers, earliest first; they all have the same delay, so they fire in the
        order they were set. */
    var timers: seq<Retry>
    /** Messages sent with `chrome.tabs.sendMessage`, in order. */
    var outbox: seq<TabMessage>
    ghost var phase: LoadPhase
    /** How many times `loadModel` has been called. */
    ghost var loadCalls: nat

    ghost predicate Valid()
      reads this
    {
      (model.Some? <==> phase == Ready) && phase != Unloaded && loadCalls == 1
    }

    /** The constructor calls `loadModel` once, which starts the load and returns at its
        first `await`. */
    constructor ()
      ensures Valid() && phase == Loading && model == None
      ensures timers == [] && outbox == []
    {
      model := None;
      timers := [];
      outbox := [];
      phase := Unloaded;
      loadCalls := 0;
      new;
      LoadModel();
    }

    /** What `loadModel` does up to its first `await`: the load is under way. */
    method LoadModel()
      requires phase == Unloaded && model == None
      modifies this`phase, this`loadCalls
      ensures phase == Loading && loadCalls == old(loadCalls) + 1
    {
      phase := Loading;
      loadCalls := loadCalls + 1;
    }

    /** The rest of `loadModel`, once `load` settles. A resolved load sets `model` before
        the warm-up classification runs, so a throwing warm-up (caught and logged) leaves it
        set: `warmUpThrows` makes no difference. A rejected load is caught and logged, and
        `model` stays unset for good. */
    method ModelLoadSettled(load: ModelLoad, warmUpThrows: bool)
      requires Valid() && phase == Loading
      modifies this`model, this`phase
      ensures Valid()
      ensures load.Resolved? ==> model == Some(load.classify) && phase == Ready
      ensures load.Rejected? ==> model == None && phase == Failed
    {
      match load
      case Resolved(classify) =>
        model := Some(classify);
        phase := Ready;
      case Rejected =>
        phase := Failed;
    }

    /** What one call of `analyzeImageAndSendMessage(imageData, url, tab)` does: without a
        model it sets a timer that repeats the call with the same arguments, otherwise it
        sends the top two predictions for the image to the tab. */
    twostate predicate Analyzed(imageData: ImageData, url: string, tab: TabId)
      reads this
    {
      model == old(model) &&
      if old(model).None? then
        timers == old(timers) + [Retry(imageData, url, tab, FiveSecondsInMs)] && outbox == old(outbox)
      else
        outbox == old(outbox) +
          [TabMessage(tab, AddPredictionToImages(url, Some(old(model).value(imageData, TopKPredictions))))] &&
        timers == old(timers)
    }

    method AnalyzeImageAndSendMessage(imageData: ImageData, url: string, tab: TabId)
      modifies this`timers, this`outbox
      ensures Analyzed(imageData, url, tab)
    {
      if model.None? {
        timers := timers + [Retry(imageData, url, tab, FiveSecondsInMs)];
        return;
      }
      var predictions := model.value(imageData, TopKPredictions);
      var message := AddPredictionToImages(url, Some(predictions));
      outbox := outbox + [TabMessage(tab, message)];
    }

    /** The host fires the earliest pending timer, which calls the analysis again. */
    method RunNextTimer()
      modifies this`timers, this`outbox
      ensures old(timers) == [] ==> timers == [] && outbox == old(outbox)
      ensures old(timers) != [] ==>
        var r := old(timers)[0];
        if model.None? then
          timers == old(timers)[1..] + [Retry(r.imageData, r.url, r.tab, FiveSecondsInMs)] &&
          outbox == old(outbox)
        else
          timers == old(timers)[1..] &&
          outbox == old(outbox) + [TabMessage(r.tab, AddPredictionToImages(r.url, Some(model.value(r.imageData, TopKPredictions))))]
    {
      if timers != [] {
        var r := timers[0];
        timers := timers[1..];
        AnalyzeImageAndSendMessage(r.imageData, r.url, r.tab);
      }
    }
  }

  /** The service worker's top level: the one classifier and the two listeners. */
  class Background {
    /** `const imageClassifier = new ImageClassifier()`: the only instance. */
    const imageClassifier: ImageClassifier
    /** The `GET_IMAGE_DATA` requests sent to tabs, whose replies come back to the
        context-menu callback. */
    var imageRequests: seq<TabMessage>

    ghost predicate Valid()
      reads this, imageClassifier
    {
      imageClassifier.Valid()
    }

    constructor ()
      ensures Valid() && fresh(imageClassifier) && imageRequests == []
      ensures imageClassifier.phase == Loading && imageClassifier.model == None
      ensures imageClassifier.timers == [] && imageClassifier.outbox == []
    {
      imageClassifier := new ImageClassifier();
      imageRequests := [];
    }

    /** `clickMenuCallback(info, tab)`: asks the tab for the image at `srcUrl`; `response`
        is what comes back (none for `null`, and for no reply at all, which throws when its
        `data` is read). Only a response that rebuilds into an image is analysed, once, with
        `srcUrl` and the tab. */
    method ClickMenuCallback(srcUrl: string, tab: TabId, response: Option<PixelBuffer>)
      modifies this`imageRequests, imageClassifier`timers, imageClassifier`outbox
      ensures imageRequests == old(imageRequests) + [TabMessage(tab, GetImageData(srcUrl))]
      ensures if response.Some? && ImageDataFrom(response.value).Some?
              then imageClassifier.Analyzed(ImageDataFrom(response.value).value, srcUrl, tab)
              else imageClassifier.timers == old(imageClassifier.timers) &&
                   imageClassifier.outbox == old(imageClassifier.outbox)
    {
      imageRequests := imageRequests + [TabMessage(tab, GetImageData(srcUrl))];
      if response.None? {
        return;
      }
      var image := ImageDataFrom(response.value);
      if image.Some? {
        imageClassifier.AnalyzeImageAndSendMessage(image.value, srcUrl, tab);
      }
    }

    /** The `chrome.runtime.onMessage` listener. `senderTab` is the sending tab, none when
        the sender is not a tab. Only `ANALYZE_IMAGE` with image data that rebuilds into an
        image, from a tab, is analysed; a `null` image throws when its `data` is read, and
        every other action is ignored. */
    method OnRuntimeMessage(message: RuntimeMessage, senderTab: Option<TabId>)
      modifies imageClassifier`timers, imageClassifier`outbox
      ensures if message.AnalyzeImage? && message.imageData.Some? &&
                 ImageDataFrom(message.imageData.value).Some? && senderTab.Some?
              then imageClassifier.Analyzed(ImageDataFrom(message.imageData.value).value, message.src, senderTab.value)
              else imageClassifier.timers == old(imageClassifier.timers) &&
                   imageClassifier.outbox == old(imageClassifier.outbox)
    {
      if message.AnalyzeImage? {
        if message.imageData.None? {
          return;
        }
        var image := ImageDataFrom(message.imageData.value);
        if image.Some? && senderTab.Some? {
          imageClassifier.AnalyzeImageAndSendMessage(image.value, message.src, senderTab.value);
        }
      }
    }
  }

  /** A request that arrives while the model is loading waits, is tried again (still
      waiting), and is answered once the load resolves, with the URL and tab it came with;
      the caller never sees an error. */
  method RequestWhileLoading(imageData: ImageData, url: string, tab: TabId, classify: Classify)
    returns (sent: seq<TabMessage>, waiting: seq<Retry>)
    ensures sent == [TabMessage(tab, AddPredictionToImages(url, Some(classify(imageData, TopKPredictions))))]
    ensures waiting == []
  {
    var classifier := new ImageClassifier();
    classifier.AnalyzeImageAndSendMessage(imageData, url, tab);
    classifier.RunNextTimer();
    classifier.ModelLoadSettled(Resolved(classify), true);
    classifier.RunNextTimer();
    sent, waiting := classifier.outbox, classifier.timers;
  }

  /** After the load is rejected a request is rescheduled every time its timer fires, with
      the same arguments, and nothing is ever sent. */
  method RequestAfterFailedLoad(imageData: ImageData, url: string, tab: TabId, firings: nat)
    returns (sent: seq<TabMessage>, waiting: seq<Retry>)
    ensures sent == []
    ensures waiting == [Retry(imageData, url, tab, FiveSecondsInMs)]
  {
    var classifier := new ImageClassifier();
    classifier.ModelLoadSettled(Rejected, false);
    classifier.AnalyzeImageAndSendMessage(imageData, url, tab);
    var n := 0;
    while n < firings
      invariant classifier.model == None
      invariant classifier.outbox == []
      invariant classifier.timers == [Retry(imageData, url, tab, FiveSecondsInMs)]
    {
      classifier.RunNextTimer();
      n := n + 1;
    }
    sent, waiting := classifier.outbox, classifier.timers;
  }
}
