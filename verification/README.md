# tsnip.nvim session core in Dafny

This project models the core of tsnip.nvim, a Neovim snippet plugin that runs on
denops. A user names a snippet with `:TSnip <name>`. The plugin then asks for
the snippet's parameters one prompt at a time. While the user types, it shows
a preview of the expansion as virtual lines. When the last parameter is
answered, it appends the expanded lines to the buffer.

The model covers the following:

- the records of `types.ts`: `Param`, `Inputs`, `Context` and `Snippet`.
  A snippet's `render` is an uninterpreted total function.
- `renderSnippet`: the context it passes, and the removal of one leading newline.
- how `renderPreview` and `insertSnippet` build buffer lines from the
  rendered text: JavaScript's `split("\n")`, the cursor line prefixed to the
  first segment, and preview padding and blanking.
- the dispatcher handlers `execute`, `submit`, `changed` and `close`.
  Each one is a pure step from the shared state to a new state plus the
  ordered list of editor effects it issues: delete preview, show preview,
  prompt, insert.
- `loadSnippetModule`: the `"_"` key for a buffer without a filetype, and
  the per-filetype module cache.
- the `items` handler, including the `info` text of each completion item.

Modules:

- `Types`: the records.
- `Text`: split, join, and the leading-newline strip.
- `Render`: rendering and line composition.
- `Session`: the four handlers, the prompt protocol and the session invariant.
- `Catalog`: the module cache, snippet lookup and completion items.
- `Scenarios`: one complete expansion of a one-parameter snippet, worked through.

The plugin keeps its state in module-level variables. The model gathers them
into `Session.State`. `lastExtMarkId` becomes the flag `markSet`, because the
code only ever tests it against `null` and never clears it.

## Model

| member | source | states |
|---|---|---|
| Types.TextOf | denops/tsnip/main.ts:224 | `inputs[name]?.text`: a missing key reads as no text; a present key reads as the text its entry carries |
| Text.Split | denops/tsnip/main.ts:88 | `split("\n")` yields one segment more than there are newlines, at least one segment, and no segment contains a newline |
| Text.JoinSplit | denops/tsnip/main.ts:88 | joining the segments of a split with newlines gives back the original string |
| Text.SplitJoin | denops/tsnip/main.ts:88 | splitting a newline-join of newline-free segments gives back the segments |
| Text.SplitPrefix | denops/tsnip/main.ts:89 | prefixing a newline-free string only lengthens the first segment; the other segments are unchanged |
| Text.SplitSnoc | denops/tsnip/main.ts:226 | appending a newline and a line adds exactly that line as a last segment |
| Text.StripLeadingNewline | denops/tsnip/main.ts:81 | `replace(/^\n/, "")` removes at most one character, the result is a suffix of the input, and a character is removed exactly when the input starts with a newline |
| Text.StripPrependedNewline | denops/tsnip/main.ts:81 | the strip undoes one prepended newline and nothing more |
| Render.RenderContext | denops/tsnip/main.ts:71-80 | render receives the session's file name, filetype and working directory, and never a post-cursor value |
| Render.RenderSnippet | denops/tsnip/main.ts:70-82 | the result is the raw render output, or that output minus a leading newline; the second case happens exactly when the output starts with a newline |
| Render.ComposeLines | denops/tsnip/main.ts:88-89 | there is one buffer line per newline-separated segment of the rendered text, and every line after the first is the corresponding segment unchanged |
| Render.ComposeLinesJoin | denops/tsnip/main.ts:88-89 | joined with newlines, the composed lines are the cursor line followed by the rendered text |
| Render.ComposeLinesSplit | denops/tsnip/main.ts:131-134 | for a newline-free cursor line, the inserted lines are the split of the cursor line concatenated with the rendered text |
| Render.Blank | denops/tsnip/main.ts:100 | a preview line is never empty: an empty line is shown as one space, any other line as it is |
| Render.PreviewLines | denops/tsnip/main.ts:98-101 | the preview has two padding lines when the floating input is in use, then one line per rendered segment; none is empty |
| Render.PreviewLinesShape | denops/tsnip/main.ts:98-100 | line by line, the padding lines are single spaces, and each following line is the composed line or, when that is empty, a space |
| Render.PreviewMatchesInsert | denops/tsnip/main.ts:88-100 | with no padding and no empty composed line, the preview shows exactly the lines that insertion appends |
| Render.PreviewBlanksTrailingLine | denops/tsnip/main.ts:100 | a rendered text ending in a newline inserts an empty last line, while the preview shows that line as a space |
| Render.SplitTrailingNewline | denops/tsnip/main.ts:88 | a string ending in a newline splits with an empty last segment |
| Session.PreviewOf | denops/tsnip/main.ts:84-103 | the preview is padding lines of one space each (two with the floating input, none otherwise), then one line per composed line: that line, or a space when it is empty |
| Session.InsertOf | denops/tsnip/main.ts:129-135 | one appended line per segment of the rendered text; every line after the first is that segment unchanged, and joined with newlines the lines are the cursor line followed by the rendered text, which fixes the first line as well. For a cursor line without a newline they are exactly the lines of that concatenation |
| Session.AppendLine | denops/tsnip/main.ts:224-226 | with no text yet the value is the new line; otherwise it is the old text, one newline, then the new line |
| Session.ClearPreview | denops/tsnip/main.ts:204-206 | the old preview is deleted exactly when a preview id has been stored |
| Session.Stored | denops/tsnip/main.ts:212 | a single-line answer is stored as no text exactly when it is empty, and otherwise verbatim |
| Session.AppendLineSplit | denops/tsnip/main.ts:224-226 | as lines, the appended multi-line value is the old value's lines followed by the new line |
| Session.Execute | denops/tsnip/main.ts:164-199 | starts with empty inputs at parameter 0 and captures the snippet, editor facts and cursor line. Without parameters it only inserts; otherwise it prompts for the first parameter and then previews the empty-input rendering. It prompts exactly when there are parameters and inserts exactly when there are none. A preview id is stored afterwards exactly when one was stored before or the snippet has parameters |
| Session.Advance | denops/tsnip/main.ts:208-229 | single-line: stores the answer, with no text for "", and advances. Multi-line "": advances and leaves the inputs untouched. Multi-line otherwise: appends the line under the name and stays on the parameter. Only the entry under `name` can change, no key disappears, and the index never passes the parameter count |
| Session.NextEffects | denops/tsnip/main.ts:234-247 | after an answer the plugin issues one prompt, labelled with the current parameter's name, while a parameter remains; otherwise it deletes the preview and then inserts |
| Session.Respond | denops/tsnip/main.ts:204-247 | an answer's effects, and nothing else: the deletion when an id is stored, then the preview of the updated inputs, then either one prompt for the new current parameter or a deletion followed by the insertion |
| Session.Submit | denops/tsnip/main.ts:200-248 | the new state is the `Advance` update with a preview id stored. The effects are exactly: the deletion when an id is stored, the preview of the updated inputs, then one prompt for the new current parameter while one remains, or else deleting the preview and inserting from the final inputs. It prompts exactly when a parameter remains and inserts exactly when none does |
| Session.Draft | denops/tsnip/main.ts:257-272 | a keystroke previews a copy of the inputs in which only the draft's entry differs. A single-line draft is kept verbatim, including "". A multi-line draft is appended to the collected text |
| Session.Changed | denops/tsnip/main.ts:249-273 | keeps inputs and index, only records the preview id, and issues the optional deletion followed by a preview of the draft inputs; it never prompts or inserts |
| Session.Close | denops/tsnip/main.ts:274-278 | leaves the state untouched; it deletes the preview exactly when an id is stored and issues nothing else |
| Session.NextIsSubmit | denops/tsnip/main.ts:56-60 | a prompt submits its answer under its own label, the current parameter's name, so one answer step is the state `submit` leaves |
| Session.ExecuteEstablishesInv | denops/tsnip/main.ts:177-178 | a fresh session satisfies the invariant and is collecting exactly when the snippet has parameters |
| Session.AnswerPreservesInv | denops/tsnip/main.ts:208-229 | one answer keeps the index within the parameters, and keeps an entry for every passed single-line parameter |
| Session.RunPreservesInv | denops/tsnip/main.ts:208-247 | any sequence of answers keeps the invariant |
| Session.KeystrokesKeepInputs | denops/tsnip/main.ts:249-273 | any number of keystrokes leaves the collected inputs and the index unchanged |
| Session.ChangedPreviewsSubmit | denops/tsnip/main.ts:249-273 | for a non-empty answer, the keystroke preview of the final draft equals the preview `submit` shows after storing it |
| Session.EmptySingleLineDraftDiffersFromSubmit | denops/tsnip/main.ts:258-262 | an empty single-line draft is previewed as empty text, while submitting it stores no text |
| Session.MultiLineLineStep | denops/tsnip/main.ts:220-228 | a non-empty multi-line answer appends under the parameter's name, keeps the same parameter current and changes no other entry |
| Session.MultiLineCollects | denops/tsnip/main.ts:217-232 | non-empty lines followed by "" gather all lines, newline-joined after any earlier text, under the parameter's name; the index advances once and no other entry changes |
| Session.MultiLineExample | denops/tsnip/main.ts:217-229 | answering "a", "b", "" to a fresh multi-line parameter stores "a\nb" and moves on |
| Session.SkippedMultiLineHasNoEntry | denops/tsnip/main.ts:218-219 | a multi-line parameter ended at once is passed without creating an entry |
| Session.SingleLineStep | denops/tsnip/main.ts:209-216 | one single-line answer is stored under the parameter's name and the index advances |
| Session.SingleLineRun | denops/tsnip/main.ts:209-216 | answers to single-line parameters with distinct names are each stored under their parameter's name, one step per answer, and every other entry is left unchanged |
| Session.SingleLineSession | denops/tsnip/main.ts:177-216 | starting a session and answering every single-line prompt completes it, with every answer stored |
| Catalog.FileTypeKey | denops/tsnip/main.ts:107-108 | the cache key is never empty: "_" for the empty filetype, otherwise the filetype itself |
| Catalog.FileTypeKeyShared | denops/tsnip/main.ts:108 | two filetypes share a cache slot exactly when they are equal, or are "" and "_" |
| Catalog.LoadModule | denops/tsnip/main.ts:106-123 | a cached key is answered from an unchanged cache. Otherwise the loaded module, or the empty module when no file exists, is cached under exactly that key. Other entries are kept |
| Catalog.LoadModuleIdempotent | denops/tsnip/main.ts:110-112 | a second load answers the same module and leaves the cache unchanged, whatever the loader |
| Catalog.Lookup | denops/tsnip/main.ts:168 | the snippet found is exported under that name, and nothing is found exactly when no export has the name |
| Catalog.LookupUnique | denops/tsnip/main.ts:168 | in a module whose keys are distinct, as those of an exported object are, looking up an export's key finds exactly that export's snippet |
| Catalog.ExecuteNamed | denops/tsnip/main.ts:164-168 | `execute` by name loads the filetype's module and starts a session for a snippet exported under that name |
| Catalog.Description | denops/tsnip/main.ts:285-286 | the static text when the snippet has one; otherwise the render output from empty inputs, minus its leading newline when it starts with one |
| Catalog.Info | denops/tsnip/main.ts:284-286 | the info ends with the static text, or with the empty-input rendering when there is none. It is headed by "[name]" and a blank line exactly when a display name exists |
| Catalog.InfoLines | denops/tsnip/main.ts:285 | read as lines, a named snippet's info is the bracketed name, an empty line, then the description's lines |
| Catalog.InfoIgnoresRenderWithText | denops/tsnip/main.ts:285-286 | with static text, the render function has no effect on the info |
| Catalog.Items | denops/tsnip/main.ts:279-293 | one item per export, in order, with its key as word and its info. The shared file name is overwritten with the buffer's |
| Catalog.ItemsKeepsSession | denops/tsnip/main.ts:281 | listing items changes nothing in a running session except the file name later renders receive |
| Scenarios.FooStart | denops/tsnip/main.ts:184-195 | `foo(<x>)` started on the line "call " prompts for "x" and previews "call foo()" |
| Scenarios.FooAnswer | denops/tsnip/main.ts:200-248 | answering "1" completes that session, ending with deleting the preview and appending "call foo(1)" |

## Behaviour of the code worth knowing

- An unknown snippet name is not reported. `execute` reads
  `module[snippetName]` (main.ts:168) and then fails reading its `params`
  (main.ts:184). `Catalog.ExecuteNamed` therefore requires the lookup to
  succeed.
- `execute` does not check for a running session. It overwrites the shared
  state (main.ts:168-182), and it does not delete a preview that is still
  shown.
- `submit` and `changed` do not compare the label they receive with the
  current parameter. They act on `snippet.params[paramIndex]` (main.ts:208,
  257) and store under the label they were given. `Session.Submit` keeps that
  name as a parameter. `Session.Run` models the prompt protocol, in which the
  label is always the current parameter's name (main.ts:192, 242, 59).
- The render context never carries `postCursor` (main.ts:71-80), although
  `Context` declares it (types.ts:17). Nothing places the cursor after
  insertion.
- `appendbufline` is called with `pos.line - 1` (main.ts:131), so the lines
  are added above the cursor line, and that line stays in the buffer. Text
  after the cursor is not treated separately: the whole cursor line is the
  prefix of the first inserted line (main.ts:132).
- A passed parameter does not always have an entry. A multi-line parameter
  answered with "" at once only advances the index (main.ts:218-219). It
  leaves no entry (`Session.SkippedMultiLineHasNoEntry`), so `Session.Inv`
  promises entries only for passed single-line parameters.

## Left out

- Prompting, autocommands, the nui.nvim floating input and `redraw` are editor I/O. They appear only as the `Prompt` effect.
- Extmark ids, namespaces, buffer numbers and positions are not modelled. Only whether an id was ever stored is kept, because the handlers test nothing else.
- Finding and importing snippet module files is left out. It is the `load` parameter of `Catalog.LoadModule`, and `None` stands for a missing file.
- How `useNui` is chosen at startup (a global variable, or probing for nui.nvim) is not modelled. It is a fixed field of the state.
- The ordering of asynchronous handler calls and the fire-and-forget `prompt` are not modelled. Each handler is one atomic step.
- An `Inputs` key mapped to `undefined` is allowed by the type but never produced by the code, so it is not representable.
- The ddc completion source (`denops/@ddc-sources/tsnip.ts`) is not part of this model.
- Catalog.Items: before the first `execute` the plugin has set only `fileName` (main.ts:281); `fileType` and `cwd` are still undefined (main.ts:28-29, assigned at 180-181), so the infos are rendered with `{ text: undefined }` for both, and a render that reads them may list "undefined" or throw. `Render.Env` holds strings only and cannot express that first call, so `Catalog.Items` describes calls made after a session was started.
- Catalog.ExecuteNamed: requires the name to be exported; the crash on an unknown name is not modelled.
- Session.Submit, Session.Changed: require a current parameter, because the code crashes reading `param.type` once all parameters are answered.
