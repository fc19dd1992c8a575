/** The page's element tree as the content script changes it: wrapping an image in a
    caption container, and removing every caption.

    The document is the sequence of its elements in document order (a preorder walk of
    the tree), each with its depth: the number of element ancestors it has. An element's
    parent is the nearest earlier element one level up, its subtree the run of deeper
    elements right after it, and document order is sequence order. */
module Dom {
  import opened Wrappers

  const TextDivClassName: string := "tfjs-mobilenet-extension-text"
  const TextContainerClassName: string := "tfjs-mobilenet-extension-text-container"

  /** One element: its tag name (lower case), class list, `src`, text content and depth. */
  datatype Element = Element(tag: string, classes: seq<string>, src: string, textContent: string, depth: nat)

  predicate IsImage(e: Element) {
    e.tag == "img"
  }

  /** Matched by the selector `.tfjs-mobilenet-extension-text`. */
  predicate IsCaption(e: Element) {
    TextDivClassName in e.classes
  }

  /** The container `addTextElementToImageNode` creates, at the depth of the image. */
  function Container(depth: nat): Element {
    Element("div", [TextContainerClassName], "", "", depth)
  }

  /** The caption element `addTextElementToImageNode` creates. */
  function CaptionDiv(depth: nat, text: string): Element {
    Element("div", [TextDivClassName], "", text, depth)
  }

  /** A sequence that is the preorder walk of a tree: the first element is the root
      element, each element is at most one level below the one before it, and an image
      (a void element) has no children. */
  ghost predicate WellFormed(s: seq<Element>) {
    (|s| > 0 ==> s[0].depth == 0) && Steps(s) && ImagesAreLeaves(s)
  }

  /** Each element is at most one level below the one before it. */
  ghost predicate Steps(s: seq<Element>) {
    forall k :: 0 < k < |s| ==> s[k].depth <= s[k - 1].depth + 1
  }

  /** The element after an image is not below it. */
  ghost predicate ImagesAreLeaves(s: seq<Element>) {
    forall k :: 0 <= k < |s| - 1 && IsImage(s[k]) ==> s[k + 1].depth <= s[k].depth
  }

  /** The last index before `j` holding an element at depth `d`. */
  function LastAtDepth(s: seq<Element>, j: nat, d: nat): (r: Option<nat>)
    requires j <= |s|
    ensures r.Some? ==> r.value < j && s[r.value].depth == d
    ensures r.Some? ==> forall k :: r.value < k < j ==> s[k].depth != d
    ensures r.None? ==> forall k :: 0 <= k < j ==> s[k].depth != d
  {
    if j == 0 then None
    else if s[j - 1].depth == d then Some(j - 1)
    else LastAtDepth(s, j - 1, d)
  }

  /** The index of the parent element of `s[k]` (`parentElement`); none for the root. */
  function ParentIndex(s: seq<Element>, k: nat): Option<nat>
    requires k < |s|
  {
    if s[k].depth == 0 then None else LastAtDepth(s, k, s[k].depth - 1)
  }

  /** The document after `addTextElementToImageNode` on the image at index `i`: the image
      is replaced, at its place, by a container holding the image and then the caption.
      An image without a parent element leaves the document as it was (the call throws
      before changing anything). */
  function WrapImage(s: seq<Element>, i: nat, text: string): seq<Element>
    requires i < |s|
  {
    var d := s[i].depth;
    if d == 0 then s
    else s[..i] + [Container(d), s[i].(depth := d + 1), CaptionDiv(d + 1, text)] + s[i + 1..]
  }

  /** An index of the document before a wrap, as an index of the document after it. */
  function Shifted(p: Option<nat>, i: nat): Option<nat> {
    if p.Some? && p.value > i then Some(p.value + 2) else p
  }

  /** Removing captions, with `skip` the depth of the caption whose subtree is being
      dropped. */
  function Strip(s: seq<Element>, skip: Option<nat>): seq<Element>
    decreases |s|
  {
    if s == [] then []
    else if skip.Some? && s[0].depth > skip.value then Strip(s[1..], skip)
    else if IsCaption(s[0]) then Strip(s[1..], Some(s[0].depth))
    else [s[0]] + Strip(s[1..], None)
  }

  /** The document after every caption element is removed from its parent, taking its
      subtree with it. */
  function RemoveCaptions(s: seq<Element>): seq<Element> {
    Strip(s, None)
  }

  predicate CaptionFree(s: seq<Element>) {
    forall k :: 0 <= k < |s| ==> !IsCaption(s[k])
  }

  /** The images `ADD_PREDICTION_TO_IMAGES` wraps: those whose `src` is `url` and that
      have a parent element. */
  predicate WrappedFor(e: Element, url: string) {
    IsImage(e) && e.src == url && e.depth > 0
  }

  /** What one element of the document becomes when every image with `src == url` is
      annotated with `text`. */
  function WrapOne(e: Element, url: string, text: string): seq<Element> {
    if WrappedFor(e, url) then [Container(e.depth), e.(depth := e.depth + 1), CaptionDiv(e.depth + 1, text)]
    else [e]
  }

  /** The document after every image with `src == url` is annotated with `text`. */
  function WrapAll(s: seq<Element>, url: string, text: string): seq<Element>
    decreases |s|
  {
    if s == [] then [] else WrapOne(s[0], url, text) + WrapAll(s[1..], url, text)
  }

  function CountCaptions(s: seq<Element>): nat
    decreases |s|
  {
    if s == [] then 0 else (if IsCaption(s[0]) then 1 else 0) + CountCaptions(s[1..])
  }

  function CountWrapped(s: seq<Element>, url: string): nat
    decreases |s|
  {
    if s == [] then 0 else (if WrappedFor(s[0], url) then 1 else 0) + CountWrapped(s[1..], url)
  }

  /** The `src` of every image, in document order. */
  function ImageSources(s: seq<Element>): seq<string>
    decreases |s|
  {
    if s == [] then [] else (if IsImage(s[0]) then [s[0].src] else []) + ImageSources(s[1..])
  }

  /** The elements the `isTarget` selector matches, in document order
      (`querySelectorAll`). */
  function Matching(s: seq<Element>, isTarget: Element -> bool): (r: seq<Element>)
    ensures |r| <= |s|
    ensures forall k :: 0 <= k < |r| ==> isTarget(r[k]) && r[k] in s
    ensures forall k :: 0 <= k < |s| && isTarget(s[k]) ==> s[k] in r
    ensures (forall k :: 0 <= k < |s| ==> !isTarget(s[k])) ==> r == []
    decreases |s|
  {
    if s == [] then []
    else
      assert forall k :: 0 < k < |s| ==> s[k] == s[1..][k - 1];
      if isTarget(s[0]) then [s[0]] + Matching(s[1..], isTarget)
      else Matching(s[1..], isTarget)
  }

  /** The document with every image that `ADD_PREDICTION_TO_IMAGES` annotates for `url`
      moved into a container of its own, without a caption. */
  function ContainersOnly(s: seq<Element>, url: string): seq<Element>
    decreases |s|
  {
    if s == [] then []
    else
      (if WrappedFor(s[0], url) then [Container(s[0].depth), s[0].(depth := s[0].depth + 1)] else [s[0]])
      + ContainersOnly(s[1..], url)
  }

  /** A mutable page document. */
  class Document {
    var nodes: seq<Element>

    ghost predicate Valid()
      reads this
    {
      WellFormed(nodes)
    }

    constructor (initial: seq<Element>)
      requires WellFormed(initial)
      ensures Valid() && nodes == initial
    {
      nodes := initial;
    }

    /** `addTextElementToImageNode(imgNode, textContent)` for the image at index `i`. */
    method AddTextElementToImageNode(i: nat, textContent: string)
      requires Valid() && i < |nodes| && IsImage(nodes[i])
      modifies this
      ensures Valid()
      ensures nodes == WrapImage(old(nodes), i, textContent)
    {
      var img := nodes[i];
      if img.depth == 0 {
        // parentElement is null: insertBefore throws before anything changes
        return;
      }
      ghost var s := nodes;
      var container := Element("div", [TextContainerClassName], "", "", img.depth);
      var text := Element("div", [TextDivClassName], "", "", img.depth + 1);
      // originalParent.insertBefore(container, imgNode)
      nodes := nodes[..i] + [container] + nodes[i..];
      // container.appendChild(imgNode): the image moves one level down
      nodes := nodes[i + 1 := img.(depth := img.depth + 1)];
      // container.appendChild(text): after the image, which has no subtree
      nodes := nodes[..i + 2] + [text] + nodes[i + 2..];
      // text.textContent = textContent
      nodes := nodes[i + 2 := nodes[i + 2].(textContent := textContent)];
      assert nodes == WrapImage(s, i, textContent);
      WrapImageWellFormed(s, i, textContent);
    }

    /** The `REMOVE_EXTENSION_TEXTS` case: every caption is removed from its parent. */
    method RemoveTextElements()
      requires Valid()
      modifies this
      ensures Valid()
      ensures nodes == RemoveCaptions(old(nodes))
    {
      ghost var s := nodes;
      var kept: seq<Element> := [];
      var skip: Option<nat> := None;
      var k := 0;
      while k < |nodes|
        invariant 0 <= k <= |nodes| && nodes == s
        invariant kept + Strip(nodes[k..], skip) == RemoveCaptions(s)
      {
        var e := nodes[k];
        assert nodes[k..][1..] == nodes[k + 1..];
        if skip.Some? && e.depth > skip.value {
          // inside a removed caption
        } else if IsCaption(e) {
          skip := Some(e.depth);
        } else {
          kept := kept + [e];
          skip := None;
        }
        k := k + 1;
      }
      assert nodes[k..] == [];
      assert kept == RemoveCaptions(s) by {
        assert kept + Strip([], skip) == kept + [] == kept;
      }
      nodes := kept;
      RemoveCaptionsWellFormed(s);
    }

    /** The `ADD_PREDICTION_TO_IMAGES` case once the caption text is known: every image
        whose `src` is `url`, in document order, gets `text`. The images are the ones
        `getElementsByTagName` listed before the first change; each change only inserts
        around the image it wraps, so a cursor over the document meets the same images
        in the same order. */
    method AddTextToImagesWithSrc(url: string, text: string)
      requires Valid()
      modifies this
      ensures Valid()
      ensures nodes == WrapAll(old(nodes), url, text)
    {
      ghost var s := nodes;
      ghost var p := 0;
      ghost var done: seq<Element> := [];
      var c := 0;
      while c < |nodes|
        invariant Valid()
        invariant 0 <= p <= |s|
        invariant done == WrapAll(s[..p], url, text)
        invariant nodes == done + s[p..] && c == |done|
        decreases |s| - p
      {
        WrapAllStep(s, p, url, text);
        if IsImage(nodes[c]) && nodes[c].src == url {
          var wrapped := nodes[c].depth > 0;
          AddTextElementToImageNode(c, text);
          c := c + if wrapped then 3 else 1;
        } else {
          c := c + 1;
        }
        p := p + 1;
        done := WrapAll(s[..p], url, text);
      }
      assert s[..p] == s;
    }
  }

  // ---------------------------------------------------------------------------
  // Lemmas about the tree a sequence denotes.

  lemma {:induction false} LastAtDepthPrefix(s: seq<Element>, t: seq<Element>, j: nat, d: nat)
    requires j <= |s| && j <= |t| && s[..j] == t[..j]
    ensures LastAtDepth(s, j, d) == LastAtDepth(t, j, d)
    decreases j
  {
    if j > 0 {
      assert s[j - 1] == s[..j][j - 1] == t[..j][j - 1] == t[j - 1];
      assert s[..j - 1] == s[..j][..j - 1] == t[..j][..j - 1] == t[..j - 1];
      LastAtDepthPrefix(s, t, j - 1, d);
    }
  }

  /** In a preorder walk the depth climbs one level at a time, so between an element at
      depth at most `x` and a later one deeper than `x` lies an element at depth `x`. */
  lemma {:induction false} DepthClimb(s: seq<Element>, a: nat, b: nat, x: nat)
    requires WellFormed(s)
    requires a < b < |s| && s[a].depth <= x < s[b].depth
    ensures LastAtDepth(s, b, x).Some? && LastAtDepth(s, b, x).value >= a
    decreases b
  {
    if s[b - 1].depth != x {
      DepthClimb(s, a, b - 1, x);
    }
  }

  lemma WrapImageWellFormed(s: seq<Element>, i: nat, text: string)
    requires WellFormed(s) && i < |s| && IsImage(s[i])
    ensures WellFormed(WrapImage(s, i, text))
  {
    var t := WrapImage(s, i, text);
    var d := s[i].depth;
    if d > 0 {
      forall k | 0 < k < |t| ensures t[k].depth <= t[k - 1].depth + 1 {
        if k > i + 3 {
          assert t[k] == s[k - 2] && t[k - 1] == s[k - 3];
        }
      }
    }
  }

  /** Searching backwards in the wrapped document from an element after the container
      finds the element the search in the original document finds, moved by two when it
      lies after the image. */
  lemma {:induction false} SearchAfterWrap(s: seq<Element>, i: nat, text: string, j: nat, x: nat)
    requires i < |s| && s[i].depth > 0
    requires i + 1 <= j <= |s|
    requires (x != s[i].depth && x != s[i].depth + 1) ||
             (LastAtDepth(s, j, x).Some? && LastAtDepth(s, j, x).value > i)
    ensures LastAtDepth(WrapImage(s, i, text), j + 2, x) == Shifted(LastAtDepth(s, j, x), i)
    decreases j
  {
    var t := WrapImage(s, i, text);
    if j == i + 1 {
      assert t[..i] == s[..i];
      LastAtDepthPrefix(s, t, i, x);
    } else {
      assert t[j + 1] == s[j - 1];
      if s[j - 1].depth != x {
        SearchAfterWrap(s, i, text, j - 1, x);
      }
    }
  }

  /** `addTextElementToImageNode` rebuilds the tree as the source intends: everything
      before the image is untouched and keeps its parent; the container takes the image's
      place under the image's old parent; the image and the caption, in that order, are
      the container's children; every later element is unchanged and keeps its parent,
      which was never the image. */
  lemma {:induction false} WrapImageTree(s: seq<Element>, i: nat, text: string)
    requires WellFormed(s) && i < |s| && IsImage(s[i]) && s[i].depth > 0
    ensures var t := WrapImage(s, i, text);
      |t| == |s| + 2 &&
      t[..i] == s[..i] &&
      (forall k :: 0 <= k < i ==> ParentIndex(t, k) == ParentIndex(s, k)) &&
      t[i] == Container(s[i].depth) && ParentIndex(t, i) == ParentIndex(s, i) &&
      t[i + 1] == s[i].(depth := s[i].depth + 1) && ParentIndex(t, i + 1) == Some(i) &&
      t[i + 2] == CaptionDiv(s[i].depth + 1, text) && ParentIndex(t, i + 2) == Some(i) &&
      (forall k :: i < k < |s| ==>
         t[k + 2] == s[k] && ParentIndex(s, k) != Some(i) &&
         ParentIndex(t, k + 2) == Shifted(ParentIndex(s, k), i))
  {
    var t := WrapImage(s, i, text);
    assert t[..i] == s[..i];
    forall k | 0 <= k < i
      ensures ParentIndex(t, k) == ParentIndex(s, k)
    {
      WrapImageParentBefore(s, i, text, k);
    }
    WrapImageParentBefore(s, i, text, i);
    forall k | i < k < |s|
      ensures t[k + 2] == s[k] && ParentIndex(s, k) != Some(i)
      ensures ParentIndex(t, k + 2) == Shifted(ParentIndex(s, k), i)
    {
      WrapImageParentAfter(s, i, text, k);
    }
  }

  /** An element up to the image keeps its parent. */
  lemma WrapImageParentBefore(s: seq<Element>, i: nat, text: string, k: nat)
    requires i < |s| && s[i].depth > 0 && k <= i
    ensures ParentIndex(WrapImage(s, i, text), k) == ParentIndex(s, k)
  {
    var t := WrapImage(s, i, text);
    assert t[..k] == s[..k];
    assert t[k].depth == s[k].depth;
    if s[k].depth > 0 { LastAtDepthPrefix(s, t, k, s[k].depth - 1); }
  }

  /** An element after the image keeps its parent, which is not the image. */
  lemma WrapImageParentAfter(s: seq<Element>, i: nat, text: string, k: nat)
    requires WellFormed(s) && i < |s| && IsImage(s[i]) && s[i].depth > 0 && i < k < |s|
    ensures WrapImage(s, i, text)[k + 2] == s[k] && ParentIndex(s, k) != Some(i)
    ensures ParentIndex(WrapImage(s, i, text), k + 2) == Shifted(ParentIndex(s, k), i)
  {
    var t := WrapImage(s, i, text);
    var d := s[i].depth;
    assert t[k + 2] == s[k];
    var e := s[k].depth;
    if e > 0 {
      var x := e - 1;
      if x == d || x == d + 1 {
        // The image has no children, so the search goes past it.
        assert s[i + 1].depth <= d;
        DepthClimb(s, i + 1, k, x);
      }
      SearchAfterWrap(s, i, text, k, x);
    }
  }

  /** The container's children are exactly the image and the caption. */
  lemma ContainerChildren(s: seq<Element>, i: nat, text: string)
    requires WellFormed(s) && i < |s| && IsImage(s[i]) && s[i].depth > 0
    ensures var t := WrapImage(s, i, text);
      forall k :: 0 <= k < |t| ==> (ParentIndex(t, k) == Some(i) <==> k == i + 1 || k == i + 2)
  {
    var t := WrapImage(s, i, text);
    forall k | 0 <= k < |t|
      ensures ParentIndex(t, k) == Some(i) <==> k == i + 1 || k == i + 2
    {
      if k <= i {
        WrapImageParentBefore(s, i, text, k);
      } else if k > i + 2 {
        WrapImageParentAfter(s, i, text, k - 2);
      }
    }
  }

  /** Annotating an image that already has a caption nests a second container inside the
      first: nothing is cleared first. */
  lemma {:induction false} ReannotateNests(s: seq<Element>, i: nat, first: string, second: string)
    requires WellFormed(s) && i < |s| && IsImage(s[i]) && s[i].depth > 0
    ensures var once := WrapImage(s, i, first);
      var twice := WrapImage(once, i + 1, second);
      var d := s[i].depth;
      twice == s[..i] + [Container(d), Container(d + 1), s[i].(depth := d + 2),
                         CaptionDiv(d + 2, second), CaptionDiv(d + 1, first)] + s[i + 1..]
  {
    var d := s[i].depth;
    var once := WrapImage(s, i, first);
    var twice := WrapImage(once, i + 1, second);
    assert once[..i + 1] == s[..i] + [Container(d)];
    assert once[i + 2..] == [CaptionDiv(d + 1, first)] + s[i + 1..];
    var mid := [Container(d), Container(d + 1), s[i].(depth := d + 2),
                CaptionDiv(d + 2, second), CaptionDiv(d + 1, first)];
    assert twice == s[..i] + mid + s[i + 1..];
  }

  // ---------------------------------------------------------------------------
  // Lemmas about removing the captions.

  lemma {:induction false} CountCaptionsAppend(a: seq<Element>, b: seq<Element>)
    ensures CountCaptions(a + b) == CountCaptions(a) + CountCaptions(b)
    decreases |a|
  {
    if a != [] {
      assert (a + b)[1..] == a[1..] + b;
      CountCaptionsAppend(a[1..], b);
    } else {
      assert a + b == b;
    }
  }

  /** Nothing the removal keeps is a caption. */
  lemma {:induction false} StripCaptionFree(s: seq<Element>, skip: Option<nat>)
    ensures CaptionFree(Strip(s, skip))
    decreases |s|
  {
    if s != [] {
      StripCaptionFree(s[1..], None);
      StripCaptionFree(s[1..], skip);
      if IsCaption(s[0]) { StripCaptionFree(s[1..], Some(s[0].depth)); }
    }
  }

  /** A document without captions is left as it is. */
  lemma {:induction false} StripNothingToRemove(s: seq<Element>)
    requires CaptionFree(s)
    ensures Strip(s, None) == s
    decreases |s|
  {
    if s != [] {
      assert !IsCaption(s[0]);
      StripNothingToRemove(s[1..]);
    }
  }

  /** Removing the captions leaves none, and removing them again changes nothing. */
  lemma RemoveCaptionsIdempotent(s: seq<Element>)
    ensures CaptionFree(RemoveCaptions(s))
    ensures RemoveCaptions(RemoveCaptions(s)) == RemoveCaptions(s)
  {
    StripCaptionFree(s, None);
    StripNothingToRemove(RemoveCaptions(s));
  }

  /** What the removal keeps still forms a tree: `bound` is the deepest the first kept
      element may lie. */
  lemma {:induction false} StripShape(s: seq<Element>, skip: Option<nat>, bound: nat)
    requires Steps(s) && ImagesAreLeaves(s)
    requires skip.Some? ==> skip.value <= bound
    requires skip.None? && s != [] ==> s[0].depth <= bound
    ensures var r := Strip(s, skip);
      (r != [] ==> r[0].depth <= bound) && Steps(r) && ImagesAreLeaves(r)
    decreases |s|
  {
    if s != [] {
      var rest := s[1..];
      assert Steps(rest) && ImagesAreLeaves(rest) by {
        assert forall k :: 0 <= k < |rest| ==> rest[k] == s[k + 1];
      }
      if skip.Some? && s[0].depth > skip.value {
        StripShape(rest, skip, bound);
      } else if IsCaption(s[0]) {
        StripShape(rest, Some(s[0].depth), bound);
      } else {
        var next := if IsImage(s[0]) then s[0].depth else s[0].depth + 1;
        StripShape(rest, None, next);
        var r := Strip(s, skip);
        assert r == [s[0]] + Strip(rest, None);
      }
    }
  }

  lemma RemoveCaptionsWellFormed(s: seq<Element>)
    requires WellFormed(s)
    ensures WellFormed(RemoveCaptions(s))
  {
    StripShape(s, None, 0);
  }

  lemma {:induction false} StripAfterCaptionFree(a: seq<Element>, b: seq<Element>)
    requires CaptionFree(a)
    ensures Strip(a + b, None) == a + Strip(b, None)
    decreases |a|
  {
    if a != [] {
      assert (a + b)[1..] == a[1..] + b;
      assert !IsCaption(a[0]);
      StripAfterCaptionFree(a[1..], b);
      assert a == [a[0]] + a[1..];
    } else {
      assert a + b == b;
    }
  }

  /** Removing the captions after annotating a document that had none takes away the
      caption only: the container stays, with the image inside it. */
  lemma RemoveAfterWrapImage(s: seq<Element>, i: nat, text: string)
    requires WellFormed(s) && CaptionFree(s) && i < |s| && IsImage(s[i])
    ensures var d := s[i].depth;
      RemoveCaptions(WrapImage(s, i, text)) ==
        if d == 0 then s else s[..i] + [Container(d), s[i].(depth := d + 1)] + s[i + 1..]
  {
    var d := s[i].depth;
    if d == 0 {
      StripNothingToRemove(s);
    } else {
      var head := s[..i] + [Container(d), s[i].(depth := d + 1)];
      var rest := s[i + 1..];
      assert WrapImage(s, i, text) == head + ([CaptionDiv(d + 1, text)] + rest);
      assert CaptionFree(head) by {
        assert !IsCaption(s[i]);
        assert s[i].(depth := d + 1).classes == s[i].classes;
        assert Container(d).classes == [TextContainerClassName];
        assert TextDivClassName != TextContainerClassName by {
          assert |TextDivClassName| != |TextContainerClassName|;
        }
      }
      StripAfterCaptionFree(head, [CaptionDiv(d + 1, text)] + rest);
      assert ([CaptionDiv(d + 1, text)] + rest)[1..] == rest;
      assert Strip([CaptionDiv(d + 1, text)] + rest, None) == Strip(rest, Some(d + 1));
      assert CaptionFree(rest);
      StripNothingToRemove(rest);
      if rest != [] {
        assert rest[0] == s[i + 1];
      }
    }
  }

  /** Skipping from a depth no deeper than the next element drops nothing. */
  lemma StripSkipShallow(s: seq<Element>, x: nat)
    requires s != [] ==> s[0].depth <= x
    ensures Strip(s, Some(x)) == Strip(s, None)
  {
  }

  /** Removing the captions after `ADD_PREDICTION_TO_IMAGES` on a document that had none
      takes away exactly the new captions: every container stays, holding its image, and
      every other element stays where it was. */
  lemma {:induction false} RemoveAfterWrapAll(s: seq<Element>, url: string, text: string)
    requires CaptionFree(s) && ImagesAreLeaves(s)
    ensures RemoveCaptions(WrapAll(s, url, text)) == ContainersOnly(s, url)
    decreases |s|
  {
    if s != [] {
      var e := s[0];
      var rest := s[1..];
      assert CaptionFree(rest) && ImagesAreLeaves(rest) by {
        assert forall k :: 0 <= k < |rest| ==> rest[k] == s[k + 1];
      }
      RemoveAfterWrapAll(rest, url, text);
      var w := WrapAll(rest, url, text);
      assert !IsCaption(e);
      if WrappedFor(e, url) {
        var d := e.depth;
        var head := [Container(d), e.(depth := d + 1)];
        var cap := CaptionDiv(d + 1, text);
        assert WrapAll(s, url, text) == head + ([cap] + w);
        assert CaptionFree(head) by {
          assert e.(depth := d + 1).classes == e.classes;
          assert Container(d).classes == [TextContainerClassName];
          assert TextDivClassName != TextContainerClassName by {
            assert |TextDivClassName| != |TextContainerClassName|;
          }
        }
        StripAfterCaptionFree(head, [cap] + w);
        assert ([cap] + w)[1..] == w;
        assert Strip([cap] + w, None) == Strip(w, Some(d + 1));
        if rest != [] {
          assert w[0] == WrapOne(rest[0], url, text)[0];
          assert rest[0].depth <= d;
        }
        StripSkipShallow(w, d + 1);
      } else {
        assert WrapAll(s, url, text) == [e] + w;
        assert ([e] + w)[1..] == w;
      }
    }
  }

  // ---------------------------------------------------------------------------
  // Lemmas about annotating every image with one URL.

  /** The selector's matches come in document order: matching a concatenation matches
      each part and keeps the parts in order. */
  lemma {:induction false} MatchingAppend(a: seq<Element>, b: seq<Element>, isTarget: Element -> bool)
    ensures Matching(a + b, isTarget) == Matching(a, isTarget) + Matching(b, isTarget)
    decreases |a|
  {
    if a != [] {
      var tail := a[1..] + b;
      assert (a + b)[0] == a[0] && (a + b)[1..] == tail;
      MatchingAppend(a[1..], b, isTarget);
      var m := Matching(tail, isTarget);
      assert m == Matching(a[1..], isTarget) + Matching(b, isTarget);
      if isTarget(a[0]) {
        assert Matching(a + b, isTarget) == [a[0]] + m;
        assert Matching(a, isTarget) == [a[0]] + Matching(a[1..], isTarget);
      } else {
        assert Matching(a + b, isTarget) == m;
        assert Matching(a, isTarget) == Matching(a[1..], isTarget);
      }
    } else {
      assert a + b == b;
    }
  }

  /** A single element is matched exactly when it satisfies the selector. */
  lemma MatchingOne(e: Element, isTarget: Element -> bool)
    ensures Matching([e], isTarget) == if isTarget(e) then [e] else []
  {
    assert [e][1..] == [];
  }

  lemma {:induction false} WrapAllAppend(a: seq<Element>, e: Element, url: string, text: string)
    ensures WrapAll(a + [e], url, text) == WrapAll(a, url, text) + WrapOne(e, url, text)
    decreases |a|
  {
    if a == [] {
      assert [e][1..] == [];
    } else {
      assert (a + [e])[1..] == a[1..] + [e];
      WrapAllAppend(a[1..], e, url, text);
    }
  }

  /** One step of the cursor in `AddTextToImagesWithSrc`. */
  lemma WrapAllStep(s: seq<Element>, p: nat, url: string, text: string)
    requires p < |s|
    ensures var pre := WrapAll(s[..p], url, text);
      var cur := pre + s[p..];
      var next := WrapAll(s[..p + 1], url, text) + s[p + 1..];
      |pre| < |cur| && cur[|pre|] == s[p] &&
      (IsImage(s[p]) && s[p].src == url ==> WrapImage(cur, |pre|, text) == next) &&
      (!(IsImage(s[p]) && s[p].src == url) ==> cur == next) &&
      |WrapAll(s[..p + 1], url, text)| == |pre| + (if WrappedFor(s[p], url) then 3 else 1)
  {
    var pre := WrapAll(s[..p], url, text);
    var rest := s[p + 1..];
    var cur := pre + ([s[p]] + rest);
    assert s[p..] == [s[p]] + rest;
    assert s[..p + 1] == s[..p] + [s[p]];
    WrapAllAppend(s[..p], s[p], url, text);
    var next := (pre + WrapOne(s[p], url, text)) + rest;
    assert WrapAll(s[..p + 1], url, text) + s[p + 1..] == next;
    assert cur[|pre|] == s[p];
    if WrappedFor(s[p], url) {
      assert cur[..|pre|] == pre;
      assert cur[|pre| + 1..] == rest;
      assert WrapImage(cur, |pre|, text) == pre + WrapOne(s[p], url, text) + rest;
    } else {
      assert next == cur;
    }
  }

  lemma {:induction false} ImageSourcesAppend(a: seq<Element>, b: seq<Element>)
    ensures ImageSources(a + b) == ImageSources(a) + ImageSources(b)
    decreases |a|
  {
    if a != [] {
      assert (a + b)[1..] == a[1..] + b;
      ImageSourcesAppend(a[1..], b);
    } else {
      assert a + b == b;
    }
  }

  /** Annotating adds exactly one caption per image with `src == url` that has a parent
      element, and no other. */
  lemma {:induction false} WrapAllAddsOneCaptionPerImage(s: seq<Element>, url: string, text: string)
    ensures CountCaptions(WrapAll(s, url, text)) == CountCaptions(s) + CountWrapped(s, url)
    decreases |s|
  {
    if s != [] {
      var e := s[0];
      WrapAllAddsOneCaptionPerImage(s[1..], url, text);
      CountCaptionsAppend(WrapOne(e, url, text), WrapAll(s[1..], url, text));
      var w := WrapOne(e, url, text);
      if WrappedFor(e, url) {
        var e' := e.(depth := e.depth + 1);
        var c := CaptionDiv(e.depth + 1, text);
        assert w == [Container(e.depth)] + ([e'] + [c]);
        assert IsCaption(e') == IsCaption(e);
        assert !IsCaption(Container(e.depth)) by {
          assert |TextDivClassName| != |TextContainerClassName|;
        }
        CountCaptionsAppend([Container(e.depth)], [e'] + [c]);
        CountCaptionsAppend([e'], [c]);
      }
    }
  }

  /** Annotating neither adds, removes nor reorders images. */
  lemma {:induction false} WrapAllKeepsImages(s: seq<Element>, url: string, text: string)
    ensures ImageSources(WrapAll(s, url, text)) == ImageSources(s)
    decreases |s|
  {
    if s != [] {
      var e := s[0];
      WrapAllKeepsImages(s[1..], url, text);
      ImageSourcesAppend(WrapOne(e, url, text), WrapAll(s[1..], url, text));
      var w := WrapOne(e, url, text);
      if WrappedFor(e, url) {
        var e' := e.(depth := e.depth + 1);
        var c := CaptionDiv(e.depth + 1, text);
        assert w == [Container(e.depth)] + ([e'] + [c]);
        ImageSourcesAppend([Container(e.depth)], [e'] + [c]);
        ImageSourcesAppend([e'], [c]);
      }
    }
  }
}
