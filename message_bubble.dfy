/**
 * `MessageBubble`: the rendered bubble of one message.  It filters the parts
 * with the same two predicates as `useMessageBubble`, shows an image block
 * and a text block only when they have content, joins the texts with line
 * breaks, and places the avatar by role.
 */
module MessageBubble {
  import opened Wrappers
  import opened JsString
  import opened UIMessage
  import opened MessageBubbleHook

  /** The text block: its content and whether it has the user's colours. */
  datatype TextBlock = TextBlock(userStyle: bool, content: string)

  /** The parts of the rendering that depend on the message. */
  datatype View = View(
    justifyEnd: bool,
    assistantAvatar: bool,
    userAvatar: bool,
    /** the `src` of each rendered image, when the image block is rendered */
    images: Option<seq<Option<string>>>,
    text: Option<TextBlock>)

  function Concat(xs: seq<string>): string {
    if xs == [] then "" else xs[0] + Concat(xs[1..])
  }

  /** The text of each span: the part's text, then `"\n"` unless it is the last. */
  function Spans(texts: seq<string>): seq<string> {
    seq(|texts|, i requires 0 <= i < |texts| => texts[i] + (if i < |texts| - 1 then "\n" else ""))
  }

  /** What the text block shows: its spans one after another. */
  function RenderedText(texts: seq<string>): string {
    Concat(Spans(texts))
  }

  function Texts(parts: seq<Part>): seq<string>
    requires forall k :: 0 <= k < |parts| ==> parts[k].TextPart?
  {
    seq(|parts|, k requires 0 <= k < |parts| => parts[k].text)
  }

  function RenderBubble(m: Message): (v: View)
    ensures v.justifyEnd <==> m.role == UserRole
    ensures v.userAvatar <==> m.role == UserRole
    ensures v.assistantAvatar <==> m.role != UserRole
    ensures v.images.Some? <==> |ImageParts(m)| > 0
    ensures v.images.Some? ==>
              |v.images.value| == |ImageParts(m)|
              && forall k :: 0 <= k < |ImageParts(m)| ==> v.images.value[k] == ImageParts(m)[k].url
    ensures v.text.Some? <==> |TextParts(m)| > 0
    ensures v.text.Some? ==>
              v.text.value.userStyle == (m.role == UserRole)
              && v.text.value.content == Join(Texts(TextParts(m)), "\n")
  {
    var b := UseMessageBubble(m);
    var images := seq(|b.imageParts|, k requires 0 <= k < |b.imageParts| => b.imageParts[k].url);
    var texts := Texts(b.textParts);
    RenderedTextIsJoin(texts);
    View(b.isUser, !b.isUser, b.isUser,
         if |b.imageParts| > 0 then Some(images) else None,
         if |b.textParts| > 0 then Some(TextBlock(b.isUser, RenderedText(texts))) else None)
  }

  /** The spans put exactly one `"\n"` between consecutive texts and none after the last. */
  lemma {:induction false} RenderedTextIsJoin(texts: seq<string>)
    ensures RenderedText(texts) == Join(texts, "\n")
  {
    if |texts| == 1 {
      assert Spans(texts)[0] == texts[0] + "" == texts[0];
      assert Spans(texts) == [texts[0]];
      assert Concat(Spans(texts)) == texts[0] + Concat([]);
    } else if |texts| > 1 {
      assert Spans(texts) == [texts[0] + "\n"] + Spans(texts[1..]);
      assert Spans(texts)[1..] == Spans(texts[1..]);
      RenderedTextIsJoin(texts[1..]);
    }
  }

  /** Texts without line breaks of their own can be read back from the rendered text. */
  lemma RenderedTextSplitsBack(texts: seq<string>)
    requires |texts| > 0
    requires forall k :: 0 <= k < |texts| ==> '\n' !in texts[k]
    ensures Split(RenderedText(texts), '\n') == texts
  {
    RenderedTextIsJoin(texts);
    SplitJoin(texts, '\n');
  }
}
