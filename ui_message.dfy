/**
 * The message shape the chat endpoint receives and the bubble renders: a
 * role and an optional list of typed parts.  A request body is decoded
 * JSON, so a file part's `mediaType` and `url` may be missing and a message
 * may have no `parts` at all.
 */
module UIMessage {
  import opened Wrappers

  datatype Role = SystemRole | UserRole | AssistantRole

  datatype Part =
    | TextPart(text: string)
    | FilePart(mediaType: Option<string>, url: Option<string>)
      /**
       * any other part kind (reasoning, tool call, source, ...), named by its
       * `type`; `kind` is never "text" or "file", which are the two
       * constructors above (see `WellFormedPart`)
       */
    | OtherPart(kind: string)

  datatype Message = Message(role: Role, parts: Option<seq<Part>>)

  /** A part whose `type` is "text" or "file" is always one of the first two constructors. */
  predicate WellFormedPart(p: Part) {
    p.OtherPart? ==> p.kind != "text" && p.kind != "file"
  }

  /** `m.parts ?? []`. */
  function PartsOf(m: Message): seq<Part> {
    m.parts.GetOr([])
  }

  predicate IsFile(p: Part) {
    p.FilePart?
  }

  /** The parts of every message, in the order of the nested `for ... of` loops. */
  function AllParts(ms: seq<Message>): seq<Part> {
    if ms == [] then [] else PartsOf(ms[0]) + AllParts(ms[1..])
  }

  lemma {:induction false} AllPartsAppend(ms: seq<Message>, ns: seq<Message>)
    ensures AllParts(ms + ns) == AllParts(ms) + AllParts(ns)
  {
    if ms == [] {
      assert ms + ns == ns;
    } else {
      assert (ms + ns)[1..] == ms[1..] + ns;
      AllPartsAppend(ms[1..], ns);
    }
  }
}
