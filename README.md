# Ask Me Anything: conversational exchange engine, in Dafny

This project models the core of the single-page chat front end in `src/App.tsx`. It has three parts.

- **Response compiler** (`compileResponse`). It turns the model's raw reply into markup. It splits the reply on line feeds and drops blank lines. In each line it rewrites `**text**` to `<strong>text</strong>`. It then classifies each line as an `<li>` or a `<p>` and wraps the whole result in one `<ul>`. Modules `Text`, `Emphasis` and `Compiler`.
- **Error classifier** (the `catch` block of `callChatGPT`). It turns a failed request into the one-line banner text. Module `Errors`.
- **Conversation update** (`callChatGPT`). It changes the component's three pieces of state: `messages`, `prompt` and `errormsg`. Module `Conversation`, class `Chat`. The awaited POST is replaced by an `Outcome` parameter: either the reply text or the caught failure.

The compiler and the classifier are pure, so they are written as functions with lemmas. The handler changes state step by step, so it is a method on a class whose fields are the three `useState` values.

Some of the code's behaviour is easy to misread. The model follows the code as written:

- A line is classified by its **raw** text, before emphasis is rewritten. So `**Hello** world` starts with `*` and becomes `<li><strong>Hello</strong> world</li>`, not a paragraph (`Compiler.LeadingEmphasisIsListItem`, `Compiler.BoldReply`).
- Numbered lines **keep** their `1.` prefix (`Compiler.OrderedItem`).
- A bullet loses one leading `*` or `-`, but only if the rewritten line still starts with one (`Compiler.BulletItem`, `Compiler.UnclosedBoldBullet`).
- There is no pending flag and no guard against overlapping submissions. The model adds neither.
- The regular expression's `.` does not match `\r`, U+2028 or U+2029. An emphasis span therefore never crosses one of these. A `\r` can survive `split("\n")` on CRLF text (`Emphasis.FindClose`).

## Model

| member | source | states |
|---|---|---|
| Text.TrimStart | src/App.tsx:70 | The result is a suffix of the input. It is empty or starts with a non-space, and every character dropped is whitespace. |
| Text.TrimEnd | src/App.tsx:76 | The result is a prefix of the input. It is empty or ends with a non-space, and every character dropped is whitespace. |
| Text.Trim | src/App.tsx:13 | `trim()` gives the empty string exactly when the text is all whitespace. A non-empty result starts and ends with a non-space. |
| Text.TrimEndAfter | src/App.tsx:70 | Trimming the end never reaches past the last non-space: `TrimEnd(p + x) == p + TrimEnd(x)` when `p` ends in a non-space. |
| Text.Lines | src/App.tsx:62 | `split("\n")` yields at least one piece, and no piece contains a line feed. |
| Text.JoinLinesOfLines | src/App.tsx:62 | Splitting loses nothing: joining the pieces with `"\n"` gives the reply back. |
| Text.LinesOfJoinLines | src/App.tsx:62 | Conversely, joining pieces that have no line feed and splitting again gives those pieces back. |
| Text.LinesAppend | src/App.tsx:62 | Splitting is local: the pieces of `a + "\n" + b` are the pieces of `a` followed by those of `b`. |
| Text.LeadingDigits | src/App.tsx:68 | Measures the maximal run of `\d` characters at the start of a line. |
| Text.Decimal | src/App.tsx:47 | The status number in the template literal is a non-empty run of digits with no leading zero. |
| Text.DecimalRoundTrip | src/App.tsx:47 | Reading the decimal text back gives the status number. |
| Emphasis.FindClose | src/App.tsx:66 | The lazy `(.*?)` search finds the first `**` reachable without crossing a line terminator. It returns none exactly when every later `**` lies behind a line terminator. |
| Emphasis.EmphasizeIdentity | src/App.tsx:66 | A line without `**` is left unchanged. |
| Emphasis.EmphasizePrefix | src/App.tsx:66 | A prefix with no `**` that does not end in `*` is copied. The scan then carries on behind it unchanged. |
| Emphasis.EmphasizeMatchFirst | src/App.tsx:66 | At the scan position, `**b**` becomes `<strong>b</strong>` when `b` is the shortest body. The scan resumes right after the closing `**`. |
| Emphasis.EmphasizeLeftmost | src/App.tsx:66 | Leftmost, shortest, non-overlapping replacement: the first complete pair after an inert prefix is replaced, and the rest is rewritten on its own. |
| Emphasis.FailedAttempt | src/App.tsx:66 | A match attempt whose every later `**` lies behind a line terminator keeps only its first `*`. The scan carries on from the second `*`, which may still open a later match, as in `**a\r**b**`. |
| Emphasis.EmphasizeUnmatched | src/App.tsx:66 | A lone `**` with no closing partner stays literal. |
| Emphasis.Emphasize | src/App.tsx:66 | The substitution itself. Its behaviour on every input is pinned down by the lemmas in this module: `EmphasizeIdentity` covers a line without `**`. `EmphasizePrefix` covers an inert prefix. `EmphasizeMatchFirst` and `EmphasizeLeftmost` cover a successful match. `FailedAttempt` and `EmphasizeUnmatched` cover a failed attempt. |
| Compiler.IsOrdered | src/App.tsx:68 | The `^\d+\.` test on the raw line. `OrderedIff` states it. |
| Compiler.IsBulleted | src/App.tsx:71 | The `startsWith("*")` or `startsWith("-")` test on the raw line. `ClassifyBullet` states its branch of the callback. |
| Compiler.StripMarker | src/App.tsx:73 | Removes one leading `*` or `-` from the rewritten line. `BulletItem` and `UnclosedBoldBullet` state its effect, and `LeadingEmphasisIsListItem` states when it removes nothing. |
| Compiler.Classify | src/App.tsx:64-78 | The `lines.map` callback. `ClassifyOrdered` ties its ordered branch to a `^\d+\.` match, `ClassifyBullet` states the bullet branch, and `UnmarkedIsParagraph` states the paragraph branch for every other line. `OrderedItem`, `BulletItem`, `UnclosedBoldBullet`, `LeadingEmphasisIsListItem` and `BoldLine` state its result on each line shape. |
| Compiler.ClassifyOrdered | src/App.tsx:68-70 | A line of one or more digits followed by a dot, as `^\d+\.` matches it, becomes an `<li>` of the whole rewritten line, trimmed. |
| Compiler.ClassifyBullet | src/App.tsx:71-73 | A raw line starting with `*` or `-` becomes an `<li>` of the rewritten line with one marker removed, trimmed. The numbered test cannot fire on it. |
| Compiler.Render | src/App.tsx:70-76 | The `<li>…</li>` and `<p>…</p>` templates. `SingleItemBody` and `BoldReply` state their output. |
| Compiler.ClassifyAllAppend | src/App.tsx:64-78 | The map keeps line order: it distributes over concatenation. |
| Compiler.RenderAllAppend | src/App.tsx:81 | `join("")` keeps fragment order: it distributes over concatenation. |
| Compiler.OrderedIff | src/App.tsx:68 | The ordered-item test holds exactly when a non-empty run of digits at the start is followed by `.`, as `^\d+\.` requires. |
| Compiler.NonBlank | src/App.tsx:62 | The filter keeps exactly the lines whose trim is non-empty, and no others. |
| Compiler.NonBlankAppend | src/App.tsx:62 | The filter keeps line order: it distributes over concatenation. |
| Compiler.NonBlankEmptyIff | src/App.tsx:62 | Nothing survives the filter exactly when every line is blank. |
| Compiler.ClassifyAll | src/App.tsx:64-78 | One fragment per kept line, in line order. Fragment i is the classification of kept line i. |
| Compiler.RenderAll | src/App.tsx:81 | Each joined fragment adds at least the seven characters of `<p></p>`. |
| Compiler.Compile | src/App.tsx:81 | The output always starts with `<ul>` and ends with `</ul>`. |
| Compiler.CompileEmptyWhenNothingKept | src/App.tsx:81 | The output is `<ul></ul>` exactly when no line survives the filter. |
| Compiler.CompileEmptyIff | src/App.tsx:62-81 | The output is `<ul></ul>` exactly when every line of the reply is blank. This includes the empty reply. |
| Compiler.CompileLineLocal | src/App.tsx:62-81 | The compiler works line by line: the fragments of `a + "\n" + b` are those of `a` followed by those of `b`. |
| Compiler.CompileSingleLine | src/App.tsx:62-78 | A single line contributes nothing if it is blank, and exactly its own rendered fragment otherwise. |
| Compiler.OrderedItem | src/App.tsx:68-70 | A line `d…d.` + rest becomes an `<li>` that keeps the number and the dot. The rest has its emphasis rewritten and its trailing space trimmed. |
| Compiler.BulletItem | src/App.tsx:71-73 | A line `-` + rest, or `*` + rest where rest does not start with `*`, becomes an `<li>` of the trimmed, rewritten rest, with the marker removed. This includes `-**x**`. |
| Compiler.UnclosedBoldBullet | src/App.tsx:71-73 | A line opening with an unclosed `**` loses only one `*`. |
| Compiler.LeadingEmphasisIsListItem | src/App.tsx:66-73 | A line opening with `**b**` is an `<li>` because the raw line starts with `*`. Nothing is stripped, because the rewritten line starts with `<`. |
| Compiler.UnmarkedIsParagraph | src/App.tsx:68-76 | Every line that does not start with `*` or `-` and that `^\d+\.` does not match is a `<p>`. This includes plain text, indented lines, the empty line, and digit-led lines such as `12 apples`, `1) x` or `2024`. |
| Compiler.BoldLine | src/App.tsx:66-73 | A line that is exactly `**b**` becomes the item `<strong>b</strong>`. |
| Compiler.SingleItemBody | src/App.tsx:62-81 | A one-line reply whose line is a list item compiles to that item alone. |
| Compiler.BoldLineShape | src/App.tsx:62 | A line that is exactly `**b**` holds no line feed and is not blank, so the filter keeps it. |
| Compiler.BoldReply | src/App.tsx:61-82 | The reply `**b**` compiles to `<ul><li><strong>b</strong></li></ul>`. |
| Errors.Describe | src/App.tsx:44-55 | Every failure gives a non-empty banner. Only a server answer gives a `Status: ` line. Without an answer, a request that left gives exactly `Error: No response received from the server.`, whatever the failure's message. A request that could not be made gives exactly `Error: ` followed by the failure's message. |
| Errors.Reason | src/App.tsx:48 | The server's message, or the status text when that message is absent or empty (falsy for the `or` operator). `DescribeRoundTrip` states this on the failure itself. |
| Errors.DescribeRoundTrip | src/App.tsx:45-55 | A `Status:` banner parses back to the status code and to the reason shown. The reason is the server's message unless that message is absent or empty, and the status text otherwise. Only a response produces a banner that parses. The parser refuses a leading zero, as `${status}` never renders one. |
| Conversation.AppendUser | src/App.tsx:13-15 | Appending a non-blank prompt as a user turn keeps the transcript well formed. |
| Conversation.AppendAssistant | src/App.tsx:37-42 | Appending markup that opens with `<ul>` and closes with `</ul>`, right after a user turn, keeps the transcript well formed. `NextMessagesWellFormed` supplies `Compile(reply)`, whose contract gives that shape. |
| Conversation.PrefixPlaced | src/App.tsx:15 | Appending a turn leaves every earlier turn in place. |
| Conversation.Chat.constructor | src/App.tsx:5-9 | Starts with an empty history, an empty prompt and no error. |
| Conversation.Chat.SetPrompt | src/App.tsx:122 | Typing changes only the prompt. |
| Conversation.RequestFor | src/App.tsx:13-22 | The conversation sent to the endpoint: none for a blank prompt, otherwise the history plus the user turn. `SubmitEffects` states it. |
| Conversation.NextMessages | src/App.tsx:13-42 | The transcript after one submission. `SubmitEffects` states its shape, and `NextMessagesWellFormed` states that it preserves the invariant. |
| Conversation.NextError | src/App.tsx:43-55 | The banner after one submission. `SubmitEffects` states it, and `Errors.Describe` states the banner text. |
| Conversation.NextPrompt | src/App.tsx:13-57 | The input field after one submission. `SubmitEffects` states it. |
| Conversation.SubmitEffects | src/App.tsx:12-58 | A blank prompt changes nothing and sends nothing. Otherwise the request is the prior history plus `{user, prompt}`, with the prompt untrimmed. On a reply the history gains that user turn and then `{assistant, Compile(reply)}`, and the error is cleared. On a failure the history gains only the user turn, and the error becomes `Describe(failure)`. The prompt is cleared in both cases. |
| Conversation.NextMessagesWellFormed | src/App.tsx:13-42 | Every submission keeps the transcript well formed: user turns are non-blank, and each assistant turn is compiled markup that directly follows a user turn. |
| Conversation.Chat.Send | src/App.tsx:12-58 | The handler moves the state exactly as `SubmitEffects` describes, sends exactly the request it describes, and keeps the transcript well formed. |

## Left out

- The POST itself: the endpoint URL, the model name, the headers and the API key from the environment (src/App.tsx:10, 18-30). These are network I/O and configuration. The result of the call is an `Outcome` parameter.
- Reading `result.data.choices[0].message.content` (src/App.tsx:32). The model takes the reply text as given. Shape errors thrown there land in the `catch` block, and they are covered by `Failed`.
- A reply `content` that is `null`, and the crash when `error.response.data.error` is undefined (src/App.tsx:48). `data.error.message` is an optional string.
- React's asynchronous, batched state updates, and overlapping submissions. The `setX` calls are sequential assignments and one submission runs at a time.
- Conversation.Chat.Send: it runs as one atomic step, so the model cannot show text typed into the prompt while the request is in flight. The final `setPrompt("")` (src/App.tsx:57) would wipe that text out.
- Rendering: the JSX, the styling, `dangerouslySetInnerHTML` and the button wiring (src/App.tsx:85-135). No HTML escaping is modelled, because the code does none.
- Text.Trim: the whitespace set is fixed. It is space, tab, line feed, vertical tab, form feed, carriage return, U+00A0, U+FEFF, U+2028 and U+2029. JavaScript's `trim` also removes the other Unicode space separators.
- Strings are sequences of Unicode scalar values, not UTF-16 code units. The difference only matters for characters outside the Basic Multilingual Plane, which none of the patterns mention.
- The status code is a natural number, so negative or fractional statuses are not modelled.
