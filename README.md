# Image-captioning browser extension: a Dafny model

This project models the core of a browser extension that captions the images on a web
page with the guesses of an image classifier (MobileNet). Two contexts share the work and
talk only through messages:

- **The content script** runs inside the page (`src/content.js`):
  - It turns a ranked prediction list into a caption, using two confidence thresholds
    from the settings store.
  - It turns an image URL into a 224 × 224 RGBA pixel buffer, or into `null` when the
    image fails to load or is too small.
  - It wraps an image in a container and adds a caption element beside it, and it
    removes every caption on request.
  - Its message listener sends the first ten selected images to the service worker, and
    writes a classification result over every image with the classified URL.
- **The service worker** is the background context (`src/service_worker.js`):
  - It holds the one `ImageClassifier`, whose `model` field stays unset until the
    asynchronous `load` resolves.
  - A request that finds no model is tried again after 5000 ms with the same arguments,
    with no limit on the number of tries.
  - A request that finds a model is classified with top-K = 2, and the result goes to the
    tab that asked.
  - The classifier is fed from two entry points: the context-menu click and the
    `ANALYZE_IMAGE` message.

The files of the model:

| file | module | what |
|---|---|---|
| `wrappers.dfy` | `Wrappers` | `Option` (null or undefined) and `Result` (returns or throws) |
| `messages.dfy` | `Messages` | predictions, pixel buffers, the message vocabulary |
| `captions.dfy` | `Captions` | the caption policy (`getTextContentFromPrediction`) |
| `acquisition.dfy` | `ImageAcquisition` | the accept/reject rule of `getImageDataFromSrc` |
| `dom.dfy` | `Dom` | the page document as a class; annotate and remove, with the tree lemmas |
| `content_script.dfy` | `ContentScript` | the content script's message listener |
| `service_worker.dfy` | `ServiceWorker` | `ImageClassifier`, its retry queue and outbox, the two listeners |

How the outside world is represented:

- **The document.** It is the sequence of its elements in document order, each with the
  number of its element ancestors.
  - An element's parent is the nearest earlier element one level higher.
  - `WellFormed` says that such a sequence is the preorder walk of a tree in which images
    have no children.
  - `Dom.Document` holds the sequence and its methods change it in place.
  - `querySelectorAll` and `getElementsByTagName` become filters over the sequence.
- **Messages.** Messages sent with `chrome.tabs.sendMessage` and
  `chrome.runtime.sendMessage` are appended to outbox fields. Replies sent with
  `sendResponse` are method results.
- **Timers.** Pending `setTimeout` calls form a queue (`ImageClassifier.timers`). All of
  them have the same delay, so the host fires them first in, first out.
- **Inputs from the host.** Stored settings are `Option<real>` inputs. How an image URL
  loads is a function from URL to load outcome. The loaded model's `classify` is an opaque
  function. The page-specific image selector is a predicate over elements.

Behaviour of the code that a reader might not expect, and that the model keeps:

- **A failed load.** A rejected `load` only logs. `model` stays unset, and every request
  is rescheduled every 5000 ms forever (`RequestAfterFailedLoad`).
- **Re-annotating an image.** A second annotation does not clear the first: a second
  container is nested inside the first, and the first caption stays (`ReannotateNests`).
- **A single prediction.** In both hedged captions, a list with one entry makes the
  read of `predictions[1].className` throw, and the image then gets no caption:
  `TextContentFromPrediction` returns `Failure(MissingSecondPrediction)`.
- **Threshold order.** Nothing checks that the low threshold is at most the high one.
  The doubtful caption is reached only when the top score is below both thresholds,
  and that is how the model states it.

## Model

| member | source | states |
|---|---|---|
| `Captions.TextContentFromPrediction` | src/content.js:15-49 | The caption cases and their order. An absent or empty list gives `No prediction 🙁` whatever the thresholds. A top score at or above `high` gives `😄 <top>!` with no second label. A top score in `[low, high)` gives `<top>?...\n Maybe <second>?`. A top score below both gives `😕  <top>????...\n Maybe <second>????`. Both hedged forms throw when there is no second prediction. |
| `Captions.AbsentSettingIsDefault` | src/content.js:21-28 | A missing stored threshold behaves exactly as if its default (high 0.5, low 0.1) were stored. |
| `Captions.CaptionTotal` | src/content.js:35-48 | For real scores, a list of two or more predictions always gets a caption. A single prediction gets one exactly when its score reaches `high`. |
| `Captions.CaptionReadsTopTwo` | src/content.js:35-48 | Only the first two predictions matter, and only the first one for a confident caption. |
| `Captions.ConfidentCatScenario` | src/content.js:35-37 | With the default thresholds, cat 0.9 / dog 0.05 gives `😄 cat!`. |
| `Captions.HedgedCatScenario` | src/content.js:39-44 | With the default thresholds, cat 0.3 / dog 0.05 gives the hedged caption naming both labels. |
| `Captions.DoubtfulCatScenario` | src/content.js:46-48 | With the default thresholds, cat 0.05 / dog 0.02 gives the doubtful caption naming both labels. |
| `ImageAcquisition.ImageDataFromSrc` | src/content.js:123-160 | A load error gives `null`. A loaded image is accepted exactly when its height or its width exceeds 128. An accepted result is 224 × 224 with `224 * 224 * 4` channel values, which are the canvas's. |
| `ImageAcquisition.SizeBoundary` | src/content.js:134-137 | A 128 × 128 image is rejected. A 129 × 1 image is accepted. |
| `Dom.Document.AddTextElementToImageNode` | src/content.js:58-71 | It applies `insertBefore`, two `appendChild`s and the `textContent` assignment to the document. The result is `WrapImage` of the old document, and the document is still a tree. An image without a parent element is left alone. |
| `Dom.WrapImageWellFormed` | src/content.js:66-68 | Wrapping an image keeps the document a tree. |
| `Dom.WrapImageTree` | src/content.js:58-71 | Everything before the image is unchanged and keeps its parent. The container takes the image's place under the image's old parent. The image and then the caption (with its text) sit below the container. Every later element is unchanged and keeps its parent, which was never the image. |
| `Dom.ContainerChildren` | src/content.js:66-68 | The container's children are exactly the image and the caption. |
| `Dom.ReannotateNests` | src/content.js:58-71 | Annotating an already annotated image nests a second container inside the first and leaves the first caption in place. |
| `Dom.Document.RemoveTextElements` | src/content.js:84-88 | `REMOVE_EXTENSION_TEXTS` leaves `RemoveCaptions` of the document: every caption element goes, with its subtree. The document is still a tree. |
| `Dom.RemoveCaptionsIdempotent` | src/content.js:84-88 | After the removal no caption is left, and a second removal changes nothing. |
| `Dom.RemoveCaptionsWellFormed` | src/content.js:85-87 | What the removal keeps still forms a tree. |
| `Dom.RemoveAfterWrapImage` | src/content.js:84-88 | Removing captions after one annotation of a caption-free page removes only the caption. The container stays, with the image inside it. |
| `Dom.RemoveAfterWrapAll` | src/content.js:84-88 | After `ADD_PREDICTION_TO_IMAGES` (lines 107-117) on a page without captions, the removal takes away exactly the new captions. Each annotated image stays inside its container, and every other element stays, in order (`ContainersOnly`). |
| `Dom.Document.AddTextToImagesWithSrc` | src/content.js:107-117 | Every image whose `src` equals the URL gets the caption, in document order. The result is `WrapAll` of the old document. |
| `Dom.WrapAllAddsOneCaptionPerImage` | src/content.js:109-115 | Annotating adds exactly one caption for each image with that `src` that has a parent element, and no other caption. |
| `Dom.WrapAllKeepsImages` | src/content.js:109-115 | Annotating neither adds, removes nor reorders images. |
| `Dom.Matching` | src/content.js:90 | The selector's matches: every element it returns is in the document and satisfies the selector, and every element of the document that satisfies the selector is returned. No match gives an empty list. |
| `Dom.MatchingAppend` | src/content.js:90 | The matches come in document order: the matches of a concatenation are the matches of the first part followed by those of the second. |
| `Dom.MatchingOne` | src/content.js:90 | A single element is matched exactly when it satisfies the selector. Together with `MatchingAppend` this fixes the result completely. |
| `ContentScript.FirstTargets` | src/content.js:90-91 | `slice(0, 10)`: the first `min(10, n)` of the `n` matching elements, in document order. |
| `ContentScript.AnalyzeRequestsShape` | src/content.js:92-99 | One `ANALYZE_IMAGE` message per target, at most ten. Each carries the target's `src` and the result of acquiring it, `null` included. |
| `ContentScript.ContentScript.ClassifyFirstNImages` | src/content.js:89-101 | `CLASSIFY_FIRST_N_IMAGES` appends exactly those messages to what the page has sent. |
| `ContentScript.ContentScript.OnMessage` | src/content.js:78-121 | A missing message does nothing. Each of the four actions does what its case says. `GET_IMAGE_DATA` replies with the acquired image. `ADD_PREDICTION_TO_IMAGES` acts only with a non-empty URL, a present list and a caption that does not throw. Any other action changes nothing. |
| `ServiceWorker.ImageDataFrom` | src/service_worker.js:25-29 | The rebuilt image has the buffer's data, width and height unchanged. It exists exactly when the host's `ImageData` constructor accepts the size. |
| `ServiceWorker.AcquiredBufferRebuilds` | src/content.js:145-150 | Every buffer the page acquires rebuilds into a 224 × 224 image with the same data. |
| `ServiceWorker.ImageClassifier.constructor` | src/service_worker.js:42-44 | It calls `loadModel` exactly once. The load is under way, `model` is unset, and no timer or message exists yet. |
| `ServiceWorker.ImageClassifier.LoadModel` | src/service_worker.js:49-53 | Up to its first `await`, it only starts the load. |
| `ServiceWorker.ImageClassifier.ModelLoadSettled` | src/service_worker.js:53-63 | `model` is set exactly when `load` resolved, even if the warm-up throws. A rejected load leaves it unset for good. |
| `ServiceWorker.ImageClassifier.AnalyzeImageAndSendMessage` | src/service_worker.js:76-96 | Without a model, no message is sent and one timer of 5000 ms is set, carrying the same arguments. With a model, exactly one `ADD_PREDICTION_TO_IMAGES` message goes to the tab. It carries the same URL and the model's top-2 predictions. |
| `ServiceWorker.ImageClassifier.RunNextTimer` | src/service_worker.js:79-82 | A fired timer repeats the call with its arguments. Without a model it goes back into the queue. |
| `ServiceWorker.Background.constructor` | src/service_worker.js:99 | The service worker creates one fresh classifier, and it is the only one. |
| `ServiceWorker.Background.ClickMenuCallback` | src/service_worker.js:14-32 | The tab is asked for the image at `info.srcUrl`. A `null` response or a malformed image makes no analysis call. Otherwise exactly one call is made, with the rebuilt image, `srcUrl` and the tab. |
| `ServiceWorker.Background.OnRuntimeMessage` | src/service_worker.js:105-120 | Only `ANALYZE_IMAGE` with image data, from a tab, leads to one analysis call, with `message.src` and the sender's tab. A `null` image and every other action are ignored. |
| `ServiceWorker.RequestWhileLoading` | src/service_worker.js:76-96 | A request that arrives during loading is retried, still waits, and is answered after the load resolves. The answer goes to the same tab with the same URL, and the caller sees no error. |
| `ServiceWorker.RequestAfterFailedLoad` | src/service_worker.js:61-84 | After a rejected load, a request is rescheduled with the same arguments however often its timer fires, and nothing is ever sent. |

## Left out

- Host transport: `chrome.runtime` and `chrome.tabs` messaging, `chrome.storage.sync` and the context-menu registration (`src/service_worker.js:126-134`). Sent messages are outbox appends, stored settings are inputs, and replies are method results.
- Asynchrony: each handler runs to completion, as one step. Nothing models the interleaving of messages with `await` points (the settings read, `classify`, the menu's reply). Nothing models messages delivered to a tab that has gone away.
- `ContentScript.ContentScript.ClassifyFirstNImages`: the `ANALYZE_IMAGE` messages are sent in document order. The source sends each one when its image settles, so the real order is the order in which the images load.
- `ContentScript.ContentScript.OnMessage`: the settings are read once for an `ADD_PREDICTION_TO_IMAGES` message. The source reads them once per image, so a setting changed in between is not modelled.
- `ServiceWorker.Background.ClickMenuCallback`: the `GET_IMAGE_DATA` request and its reply form one step, with the reply given as an input.
- Image decoding and drawing (`Image`, `OffscreenCanvas`, `drawImage`, `getImageData`): channel values are opaque inputs. Only the size test, the buffer size and the copy of the values are modelled.
- MobileNet and TensorFlow.js (`load`, `classify`, `tidy`, `zeros`): the load outcome is an input and `classify` is an opaque function. The warm-up appears only as an input flag, because its outcome changes no state.
- Floating point: scores and thresholds are `real`, and IEEE special values are not modelled. A NaN score, where no caption branch fires and the source returns `undefined`, is outside the model.
- Logging, timing (`performance.now`) and the styling of the container and caption.
- The DOM:
  - The document is a sequence of elements. Text nodes, attributes other than tag, classes, `src` and text content, and element identity are not modelled.
  - Two elements with the same fields cannot be told apart.
  - `src` is taken to be the URL string the page reports.
- The UI and demo files: `src/options.js`, `src/popup.js` and the root-level `popup.js`, `content.js` and `background.js`. They are event wiring to storage and messaging, and a separate hello-world example.
