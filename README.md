# Chat endpoint validation and session state of a browser chat client

This project is a Dafny model of the decision logic of a Next.js chat client. Users attach an image to a multi-part message, and the app sends the conversation to a language-model endpoint. The model covers:

- **The chat endpoint's attachment validator** (`POST /api/chat`). Every `file` part of every message is checked in a fixed order before the request is forwarded to the model provider:
  1. the media type is one of `image/jpeg`, `image/png`, `image/gif`, `image/webp`;
  2. the URL starts with `data:`;
  3. the segment after the first comma is non-empty;
  4. `floor(len * 3 / 4)` is at most 5 MiB.
  
  The first violation produces a 400 JSON error. The model has a specification function `ChatRoute.Verdict` and a method `ChatRoute.Post`. `Post` keeps the handler's nested loops and early returns, and is proved equal to `Verdict`.
- **Message-part partitioning.** `useMessageBubble` and the `MessageBubble` component split a message's parts into image-file parts and text parts. The bubble joins the texts with line breaks and places avatars according to the role.
- **Session state.** The server actions `loginAction`, `logoutAction` and `getSession` work over a cookie store. On the client, the `AuthProvider` keeps the signed-in user and mirrors it into `localStorage`.
- **Form handlers.** These are the profile form's save rule and the login form's flags and redirect.

The server's cookie store, the provider's state and the two forms become classes with `modifies` frames. The validator, the filters and the rendering are functions. Each property is stated either as a method's `ensures` or as a lemma about the specification functions.

Modules, by file:

| file | module | models |
|---|---|---|
| wrappers.dfy | `Wrappers` | `Option`, for `undefined` / `null` and `??` |
| js_string.dfy | `JsString` | `startsWith`, `split`, `split(c, 2)[1]`, `join`, `trim`, ASCII `toUpperCase`, `replace`, UTF-16 `length` |
| number_format.dfy | `NumberFormat` | decimal printing of integers, and `toFixed(1)` once a value is rounded to tenths |
| seqs.dfy | `Seqs` | `filter`, and the positions it keeps |
| ui_message.dfy | `UIMessage` | the message shape: role, optional parts, text / file / other parts |
| chat_route.dfy | `ChatRoute` | `src/app/api/chat/route.ts` |
| use_message_bubble.dfy | `MessageBubbleHook` | `src/app/_hooks/useMessageBubble.ts` |
| message_bubble.dfy | `MessageBubble` | `src/app/_components/chat/message-bubble.tsx` |
| navigation.dfy | `Navigation` | `router.push`, recorded as a list of targets |
| auth_actions.dfy | `AuthActions` | `src/app/_actions/auth.ts` |
| auth_context.dfy | `AuthContext` | `src/app/_context/AuthContext.tsx` |
| use_profile_form.dfy | `UseProfileForm` | `src/app/_hooks/useProfileForm.ts` |
| use_login_form.dfy | `UseLoginForm` | `src/app/_hooks/useLoginForm.ts` |

How external things are represented:

- **Request body.** The decoded JSON body is a `MessagesField`: missing, not an array, or a list of messages.
- **File parts.** A file part's `mediaType` and `url` are optional, because they come from untrusted JSON.
- **String lengths.** `length` is counted in UTF-16 code units (`JsString.CodeUnits`). Base64 text is ASCII, so for payloads this equals the number of characters (`JsString.CodeUnitsOfBmp`).
- **Storage and cookies.** `localStorage` and the cookie jar are maps. JSON serialisation is the identity on records. A stored value is either a serialised user or text that `JSON.parse` rejects.
- **Other collaborators.** React state setters are immediate assignments. `router.push` appends to `Navigation.Router.pushed`. A toast is a recorded `UseProfileForm.Toast`. `process.env.NODE_ENV === "production"` is the parameter `production`.

Facts about the code that the model keeps:

- **No client-side validation.** The modelled files contain no client-side validation of attachments, so only the server check is modelled.
- **Error titles.** Errors carry the code's titles: "Unsupported File Type", "Invalid Image Data" (for both a missing `data:` prefix and an empty payload) and "Image Too Large".
- **Base64 segment.** The size is computed from `url.split(",", 2)[1]`. This is the text between the first and the second comma, not everything after the first comma. `JsString.SplitSecond` states exactly that.
- **Empty message list.** A messages array with no messages passes validation and is forwarded.

## Model

| member | source | states |
|---|---|---|
| ChatRoute.CreateErrorResponse | src/app/api/chat/route.ts:20-31 | The status and the error message pass through unchanged, and the content type is JSON. `details` is present exactly when it is given and is a non-empty string; an empty string is dropped like `undefined`. |
| ChatRoute.SupportedFormats | src/app/api/chat/route.ts:54-56 | The format list built from the allow-list, with `image/` stripped and the rest upper-cased, is `JPEG, PNG, GIF, WEBP`. |
| ChatRoute.Rejection | src/app/api/chat/route.ts:57-87 | Every violation is answered with status 400 and a details string. The title is "Unsupported File Type" for a bad type, "Invalid Image Data" for a missing `data:` prefix or an empty payload, and "Image Too Large" for the size. |
| ChatRoute.UnsupportedDetailsNameType | src/app/api/chat/route.ts:60 | The unsupported-type details name the offending media type, or `unknown` when it is missing. |
| ChatRoute.TenthsOfMib | src/app/api/chat/route.ts:82 | The MB figure is `size / 2^20` rounded to tenths, to the nearest value, with ties going up, as `toFixed(1)` rounds. |
| NumberFormat.FixedOne | src/app/api/chat/route.ts:82 | The figure is printed as the integer part, a dot and exactly one digit. |
| NumberFormat.FixedOneReadsBack | src/app/api/chat/route.ts:82 | The `toFixed(1)` figure reads back, integer part and digit, as the number of tenths it was printed from. |
| ChatRoute.TooLargeDetailsShowSize | src/app/api/chat/route.ts:82-86 | The too-large message shows `toFixed(1)` of the size in MiB right after "The image size (", and that figure reads back as the rounded size. |
| NumberFormat.ParseDecimalOfDecimal | src/app/api/chat/route.ts:86 | The decimal printing of a number (used for `MAX_FILE_SIZE_MB`) reads back as that number. |
| JsString.SplitSecond | src/app/api/chat/route.ts:71 | `split(",", 2)[1]` is defined exactly when the URL has a comma. It is then the text after the first comma, up to the next comma or the end, and contains no comma. |
| JsString.SplitSecondIsSecondPiece | src/app/api/chat/route.ts:71 | That segment is the second piece of the full split, which is why the limit 2 does not change it. |
| JsString.CodeUnitsOfBmp | src/app/api/chat/route.ts:80 | For text in the Basic Multilingual Plane, such as base64, `length` equals the number of characters. |
| ChatRoute.SizeThreshold | src/app/api/chat/route.ts:80-81 | Size rejection, `floor(len*3/4) > 5242880`, happens exactly when `len >= 6990508`. The size is exactly 5242880 exactly when `len == 6990507`. |
| ChatRoute.ExactCeilingAccepted | src/app/api/chat/route.ts:81 | A payload that decodes to exactly 5 MiB is accepted, so the ceiling is inclusive. |
| ChatRoute.CheckOrder | src/app/api/chat/route.ts:53-88 | A file part passes exactly when type, `data:` prefix, non-empty payload and length ceiling all hold. Each rejection kind is reported exactly when its check fails and every earlier check passed: type, then prefix, then content, then size. |
| ChatRoute.Verdict | src/app/api/chat/route.ts:45-96 | An absent or non-array `messages` gives 400 "Missing messages array." with no details, and no part is inspected. Every rejection has status 400. A forwarded request carries the message list unchanged. |
| ChatRoute.Post | src/app/api/chat/route.ts:41-96 | The nested loops with early returns compute exactly `Verdict`. |
| ChatRoute.FirstViolationInIsFirst | src/app/api/chat/route.ts:51-91 | A part list has no violation exactly when every part passes. Otherwise the reported violation is that of a part before which every part passed. |
| ChatRoute.FirstViolatingPartDecides | src/app/api/chat/route.ts:51-91 | The first violating part decides the result, whatever follows it. Later parts are not examined. |
| ChatRoute.FirstViolationInAppend | src/app/api/chat/route.ts:51-91 | Scanning `ps + qs` gives the violation of `ps` if it has one, and otherwise that of `qs`. |
| ChatRoute.FirstViolationAppend | src/app/api/chat/route.ts:50-91 | The same holds across messages. |
| ChatRoute.FirstViolationFlattens | src/app/api/chat/route.ts:50-51 | The two nested loops scan the parts of all messages as one sequence, in message order. |
| ChatRoute.FirstViolatingFileDecides | src/app/api/chat/route.ts:50-91 | Suppose every part of earlier messages passes, every earlier part of the same message passes, and this file part violates. Then the response is this violation's 400 error. |
| ChatRoute.NonFilePartsIgnored | src/app/api/chat/route.ts:52 | Removing every part that is not a file part never changes the verdict. |
| ChatRoute.MessageWithoutPartsSkipped | src/app/api/chat/route.ts:51 | A message with undefined `parts` is treated as having none. |
| ChatRoute.ForwardIffAllFilesValid | src/app/api/chat/route.ts:93-96 | The request reaches the model call exactly when every file part of every message passes all four checks, and it is forwarded unchanged. |
| UIMessage.AllPartsAppend | src/app/api/chat/route.ts:50-51 | The parts of two message lists in sequence are the parts of each, concatenated. |
| Seqs.FilterSelectsPositions | src/app/_hooks/useMessageBubble.ts:20-26 | `filter` keeps exactly the elements at the increasing positions where the predicate holds, in their original order. |
| Seqs.DisjointFiltersFit | src/app/_hooks/useMessageBubble.ts:20-26 | Two filters by predicates that exclude each other share no element, and their lengths add up to at most the input's length. |
| MessageBubbleHook.UseMessageBubble | src/app/_hooks/useMessageBubble.ts:17-30 | `isUser` holds exactly when the role is `user`. Every image part is a file part whose media type starts with `image/`, and every text part is a text part. No part is in both lists, their lengths add up to at most the number of parts, and both are empty when `parts` is undefined. |
| MessageBubbleHook.ImagePartsAreTheImageFiles | src/app/_hooks/useMessageBubble.ts:20-23 | `imageParts` is exactly the subsequence of image file parts, in the original order. |
| MessageBubbleHook.TextPartsAreTheTexts | src/app/_hooks/useMessageBubble.ts:24-26 | `textParts` is exactly the subsequence of text parts, in the original order. |
| MessageBubble.RenderBubble | src/app/_components/chat/message-bubble.tsx:14-93 | The bubble is right-aligned and shows the user avatar exactly when the role is `user`, and shows the assistant avatar exactly otherwise. The image block renders exactly when there is an image file part, with one image per part and that part's URL. The text block renders exactly when there is a text part, shows the texts joined by `"\n"`, and has the user colours exactly for the user. |
| MessageBubble.RenderedTextIsJoin | src/app/_components/chat/message-bubble.tsx:56-60 | The spans (each text, then `"\n"` unless it is the last) concatenate to the texts joined with a single `"\n"`, with none after the last. |
| MessageBubble.RenderedTextSplitsBack | src/app/_components/chat/message-bubble.tsx:56-60 | Texts without their own line breaks are recovered by splitting the rendered text at `"\n"`. |
| JsString.SplitJoin | src/app/_components/chat/message-bubble.tsx:56-60 | Splitting a join at its one-character separator gives the pieces back, when no piece holds the separator. |
| AuthActions.CookieStore.Set | src/app/_actions/auth.ts:16-21 | `cookieStore.set` replaces that one cookie. |
| AuthActions.CookieStore.Delete | src/app/_actions/auth.ts:34 | `cookieStore.delete` removes that one cookie and nothing else. |
| AuthActions.CookieStore.Get | src/app/_actions/auth.ts:43 | `cookieStore.get` finds a cookie exactly when it is in the jar, and returns it. |
| AuthActions.SessionCookie | src/app/_actions/auth.ts:16-21 | The session cookie has the value `authenticated` and a max age of 86400 seconds. |
| AuthActions.LoginAction | src/app/_actions/auth.ts:13-27 | Login succeeds exactly for `test@example.com` / `password123`. On success, the `session` cookie is set to `authenticated` (httpOnly, `lax`, 24 hours, secure in production), the rest of the jar is unchanged, and the result is the Test User. On failure, the error is "Invalid credentials" and the jar is unchanged. |
| AuthActions.LogoutAction | src/app/_actions/auth.ts:32-36 | Logout removes `session`, leaves every other cookie as it was, and always succeeds. |
| AuthActions.SessionUserOf | src/app/_actions/auth.ts:43-47 | There is a user exactly when the `session` cookie's value is `authenticated`, and that user is the Test User. |
| AuthActions.GetSession | src/app/_actions/auth.ts:41-48 | `getSession` reports the session of the current jar. |
| AuthActions.SessionAfterLogin | src/app/_actions/auth.ts:16-45 | After a successful login, `getSession` returns the Test User, whatever other cookies exist. |
| AuthActions.SessionAfterLogout | src/app/_actions/auth.ts:34-47 | After `logoutAction`, `getSession` returns null, and every other cookie is unchanged. |
| AuthActions.SignInAndOut | src/app/_actions/auth.ts:13-48 | Log in, read the session, log out and read it again: the reads give first the user and then nobody. |
| Navigation.Router.Push | src/app/_context/AuthContext.tsx:85 | A navigation appends its target to the recorded history. |
| AuthContext.PersistedUser | src/app/_context/AuthContext.tsx:58-61 | A stored user is restored exactly when the `user` entry exists and parses. |
| AuthContext.Merge | src/app/_context/AuthContext.tsx:71 | `{...prevUser, ...userData}`: each given field wins. Every field not given keeps its previous value, or is absent when there was no previous user. |
| AuthContext.MergeIdempotent | src/app/_context/AuthContext.tsx:71 | Applying the same update twice gives the same user as applying it once. |
| AuthContext.MergeOverNobody | src/app/_context/AuthContext.tsx:71 | Over a null user, the update is the whole new user. |
| AuthContext.AuthProvider.constructor | src/app/_context/AuthContext.tsx:52-53 | The provider starts with no user, not initialised, over the given storage. |
| AuthContext.AuthProvider.Initialize | src/app/_context/AuthContext.tsx:56-67 | After the mount effect, `isInitialized` holds whether or not stored data existed or parsed. The user is the stored one when it parses, and stays as it was (null) otherwise. Storage is untouched, and memory and storage then agree. |
| AuthContext.AuthProvider.UpdateUser | src/app/_context/AuthContext.tsx:69-75 | The user becomes the previous user overlaid with the given fields, and storage `user` holds exactly the new user. |
| AuthContext.AuthProvider.Login | src/app/_context/AuthContext.tsx:76-89 | Valid credentials set the Test User, store it under `user` and navigate to `/chat`. Any other credentials fail with "Invalid credentials" and leave user, storage and navigation unchanged. |
| AuthContext.AuthProvider.Logout | src/app/_context/AuthContext.tsx:91-95 | The user becomes null, the `user` key is removed, and the app navigates to `/login`. |
| AuthContext.Reload | src/app/_context/AuthContext.tsx:56-67 | While memory and storage agree, a fresh provider over the same storage restores the same user once initialised. |
| UseProfileForm.NameOf | src/app/_hooks/useProfileForm.ts:12 | The initial name is the user's name, or `""` when there is no user or no name. |
| UseProfileForm.EmailOf | src/app/_hooks/useProfileForm.ts:26 | The email is the user's email, or `""`. |
| UseProfileForm.ProfileForm.constructor | src/app/_hooks/useProfileForm.ts:11-12 | The form's name starts as the signed-in user's name, or `""`. |
| UseProfileForm.ProfileForm.SetName | src/app/_hooks/useProfileForm.ts:27 | `setName` replaces the name. |
| UseProfileForm.ProfileForm.HandleSave | src/app/_hooks/useProfileForm.ts:14-22 | A name that is non-empty after trimming is saved trimmed, through `updateUser({name})`, with a success toast. An empty or whitespace-only name leaves user and storage unchanged and raises the error toast. |
| UseProfileForm.SavedNameIsTrimmed | src/app/_hooks/useProfileForm.ts:16-17 | The saved name is non-empty, has no whitespace at either end, and is unchanged by trimming again. |
| JsString.TrimSpec | src/app/_hooks/useProfileForm.ts:16 | `trim()` cuts only ECMAScript whitespace, and only from the two ends. Its result neither starts nor ends with whitespace, and it is empty exactly when the input is all whitespace. |
| JsString.TrimIdempotent | src/app/_hooks/useProfileForm.ts:16-17 | Trimming twice is trimming once. |
| UseProfileForm.SaveTwice | src/app/_hooks/useProfileForm.ts:16-17 | Saving the same name twice leaves the same user as saving it once. |
| UseLoginForm.LoginForm.constructor | src/app/_hooks/useLoginForm.ts:12-15 | The form starts with empty email, password and error, and `isLoading` false. |
| UseLoginForm.LoginForm.SetEmail | src/app/_hooks/useLoginForm.ts:45 | `setEmail` replaces the email only. |
| UseLoginForm.LoginForm.SetPassword | src/app/_hooks/useLoginForm.ts:47 | `setPassword` replaces the password only. |
| UseLoginForm.LoginForm.Authenticating | src/app/_hooks/useLoginForm.ts:50 | `isAuthenticating == (!isInitialized \|\| user != null)`. |
| UseLoginForm.FormShownIffIdle | src/app/_hooks/useLoginForm.ts:21-50 | The form is shown exactly when the provider is initialised and nobody is signed in. A redirect happens only while the spinner is shown. |
| UseLoginForm.LoginForm.RedirectIfSignedIn | src/app/_hooks/useLoginForm.ts:21-25 | The app redirects to `/chat` exactly when `isInitialized` holds and a user is present. |
| UseLoginForm.LoginForm.HandleLogin | src/app/_hooks/useLoginForm.ts:30-41 | `login` is called with `error` cleared and `isLoading` true. On return, `isLoading` is false whatever happened. A failed login sets exactly "Invalid email or password. Please try again." and changes nothing else. A successful one keeps `error` empty, signs in the Test User and navigates to `/chat`. |

## Left out

- **Model provider call.** `streamText`, `anthropic(...)`, `convertToModelMessages` and `toUIMessageStreamResponse` (src/app/api/chat/route.ts:93-103) are calls into the AI SDK. The model stops at `Forward(messages)`.
- **Catch-all 500 response.** The response at src/app/api/chat/route.ts:104-110 covers failures of `req.json()` and of the SDK. It is not modelled, because the model receives an already decoded body and no SDK exception can be represented.
- **MB figure for very large payloads.** `ChatRoute.TenthsOfMib` computes the figure with exact integers. JavaScript's double arithmetic agrees only while `length * 3` stays below 2^53, that is, for payloads shorter than 2^51 code units.
- **Request shapes not represented.** Three shapes that the handler meets are not in the model:
  - A string `parts` is iterated character by character in the source (src/app/api/chat/route.ts:51). No character has `type` "file", so it passes; in the model it would correspond to parts that are all `OtherPart`.
  - A `parts` value that is neither iterable nor `null`/`undefined` throws, and so does a `null` element of `messages` or of `parts` (src/app/api/chat/route.ts:51-52, at `m.parts` and `part.type`). All of these end in the 500 response.
  - A `mediaType` or `url` of a non-string type cannot be represented.
  
  `parts: null` needs no separate case: `??` treats it as no parts, which the model's `None` covers.
- **Streaming and the chat handler hook.** The client chat state machine, lifecycle and streaming in src/app/_hooks/ useChatHandler.tsx are not part of this model. That hook and `fileToBase64` (src/app/_utils/files.ts) wrap the AI SDK's `useChat` and the browser's `FileReader`, which are asynchronous I/O.
- **Layout and rendering.** Sidebar, header, menus, lists, spinners, pages and class names are pure layout and are not modelled.
- **Bubble rendering details.** `MessageBubble.RenderBubble` does not model the user avatar's `src`/`alt`, which are taken from the signed-in user, nor the fixed image width and height.
- **`useAuth` outside a provider.** Throwing when used outside a provider (src/app/_context/AuthContext.tsx:38-44) is a React context concern and is not modelled.
- **`useMemo` caching.** The caching in `useMessageBubble` has no observable state. The hook's returned `user` is passed through from the auth context.
- **State updates.** React batches state updates. The model applies them immediately and in program order.
- **JSON values that are not users.** `JSON.parse` of stored text that is valid JSON but not a user object (for example `"42"`) is not distinguished. Such text is treated as a serialised user or as text that does not parse.
- **Partial user fields set to `undefined`.** `updateUser` with a field explicitly set to `undefined` overwrites it in the source. `AuthContext.Merge` cannot express that, because a field that is not given and a field set to `undefined` are both `None`. The only caller passes `{name}`.
- `JsString.UpperAscii`: upper-cases ASCII letters only, not all of Unicode. It is only applied to the four allow-listed type names, which are ASCII.
