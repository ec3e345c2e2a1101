/**
 * `useMessageBubble`: whether a message is the user's, and its parts split
 * into image attachments and text parts, each in the original order.
 */
module MessageBubbleHook {
  import opened Wrappers
  import opened JsString
  import opened Seqs
  import opened UIMessage

  /** `p.type === "file" && p.mediaType?.startsWith("image/")`. */
  predicate IsImagePart(p: Part) {
    p.FilePart? && p.mediaType.Some? && StartsWith(p.mediaType.value, "image/")
  }

  /** `p.type === "text"`. */
  predicate IsTextPart(p: Part) {
    p.TextPart?
  }

  function ImageParts(m: Message): seq<Part> {
    Filter(IsImagePart, PartsOf(m))
  }

  function TextParts(m: Message): seq<Part> {
    Filter(IsTextPart, PartsOf(m))
  }

  /** What the hook returns besides the signed-in user, which it only passes through. */
  datatype Bubble = Bubble(isUser: bool, imageParts: seq<Part>, textParts: seq<Part>)

  function UseMessageBubble(m: Message): (b: Bubble)
    ensures b.isUser <==> m.role == UserRole
    ensures forall k :: 0 <= k < |b.imageParts| ==> IsImagePart(b.imageParts[k])
    ensures forall k :: 0 <= k < |b.textParts| ==> b.textParts[k].TextPart?
    ensures forall p :: p in b.imageParts ==> p !in b.textParts
    ensures |b.imageParts| + |b.textParts| <= |PartsOf(m)|
    ensures m.parts.None? ==> b.imageParts == [] && b.textParts == []
  {
    DisjointFiltersFit(IsImagePart, IsTextPart, PartsOf(m));
    Bubble(m.role == UserRole, ImageParts(m), TextParts(m))
  }

  /**
   * The image list is exactly the image file parts: part `k` of it is the
   * part at the `k`-th position whose part is an image file.
   */
  lemma ImagePartsAreTheImageFiles(m: Message)
    ensures var ps, idx := PartsOf(m), Positions(IsImagePart, PartsOf(m));
      |ImageParts(m)| == |idx|
      && (forall k :: 0 <= k < |idx| ==> ImageParts(m)[k] == ps[idx[k]])
      && (forall k, l :: 0 <= k < l < |idx| ==> idx[k] < idx[l])
      && (forall i :: 0 <= i < |ps| ==> (i in idx <==> IsImagePart(ps[i])))
  {
    FilterSelectsPositions(IsImagePart, PartsOf(m));
  }

  /** The text list is exactly the text parts, in order. */
  lemma TextPartsAreTheTexts(m: Message)
    ensures var ps, idx := PartsOf(m), Positions(IsTextPart, PartsOf(m));
      |TextParts(m)| == |idx|
      && (forall k :: 0 <= k < |idx| ==> TextParts(m)[k] == ps[idx[k]])
      && (forall k, l :: 0 <= k < l < |idx| ==> idx[k] < idx[l])
      && (forall i :: 0 <= i < |ps| ==> (i in idx <==> ps[i].TextPart?))
  {
    FilterSelectsPositions(IsTextPart, PartsOf(m));
  }
}
