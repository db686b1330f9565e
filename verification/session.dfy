/** The expansion session: the four dispatcher handlers `execute`,
    `submit`, `changed` and `close`, each a pure step from the session
    state to a new state plus the editor effects it issues, in order. */
module Session {
  import opened Types
  import opened Text
  import opened Render

  /** What a handler asks the editor to do. `DeletePreview` removes the
      last preview extmark, `ShowPreview` places one holding these virtual
      lines, `Prompt` asks for a parameter under this label and `Insert`
      appends these lines to the buffer. */
  datatype Effect =
    | DeletePreview
    | ShowPreview(lines: seq<string>)
    | Prompt(paramName: string)
    | Insert(lines: seq<string>)

  /** The state the handlers share. `markSet` records that a preview
      extmark id has been stored; the id is never cleared again, so once
      set it stays set. `useNui` is fixed when the plugin starts. */
  datatype State = State(
    snippet: Snippet,
    env: Env,
    currentLine: string,
    useNui: bool,
    inputs: Inputs,
    paramIndex: nat,
    markSet: bool)

  /** A handler's result: the new state and the effects in issue order. */
  datatype Step = Step(state: State, effects: seq<Effect>)

  /** Some parameter is still awaiting an answer. */
  predicate Collecting(s: State)
  {
    s.paramIndex < |s.snippet.params|
  }

  function CurrentParam(s: State): Param
    requires Collecting(s)
  {
    s.snippet.params[s.paramIndex]
  }

  ghost predicate Prompts(effects: seq<Effect>)
  {
    exists i :: 0 <= i < |effects| && effects[i].Prompt?
  }

  ghost predicate Inserts(effects: seq<Effect>)
  {
    exists i :: 0 <= i < |effects| && effects[i].Insert?
  }

  ghost predicate Shows(effects: seq<Effect>)
  {
    exists i :: 0 <= i < |effects| && effects[i].ShowPreview?
  }

  /** `renderPreview`: the virtual lines of the snippet rendered from
      `inputs`, shown below the cursor line. After the padding, the preview
      is the composed lines with each empty line shown as a space. */
  function PreviewOf(s: State, inputs: Inputs): (e: Effect)
    ensures e.ShowPreview?
    ensures var lines := ComposeLines(s.currentLine, RenderSnippet(s.snippet, inputs, s.env));
      && |e.lines| == Padding(s.useNui) + |lines|
      && (forall i :: 0 <= i < Padding(s.useNui) ==> e.lines[i] == " ")
      && (forall i :: 0 <= i < |lines| ==> e.lines[Padding(s.useNui) + i] == Blank(lines[i]))
  {
    PreviewLinesShape(s.useNui, s.currentLine, RenderSnippet(s.snippet, inputs, s.env));
    ShowPreview(PreviewLines(s.useNui, s.currentLine, RenderSnippet(s.snippet, inputs, s.env)))
  }

  /** `insertSnippet`: the lines appended for the state's own inputs.
      Joined, they are the cursor line followed by the rendered text; for a
      cursor line without a newline they are exactly that text's lines. */
  function InsertOf(s: State): (e: Effect)
    ensures e.Insert?
    ensures |e.lines| == NewlineCount(RenderSnippet(s.snippet, s.inputs, s.env)) + 1
    ensures e.lines[1..] == Split(RenderSnippet(s.snippet, s.inputs, s.env))[1..]
    ensures Join(e.lines) == s.currentLine + RenderSnippet(s.snippet, s.inputs, s.env)
    ensures IsLine(s.currentLine) ==> e.lines == Split(s.currentLine + RenderSnippet(s.snippet, s.inputs, s.env))
  {
    var rendered := RenderSnippet(s.snippet, s.inputs, s.env);
    var lines := ComposeLines(s.currentLine, rendered);
    ComposeLinesJoin(s.currentLine, rendered);
    assert IsLine(s.currentLine) ==> lines == Split(s.currentLine + rendered) by {
      if IsLine(s.currentLine) { ComposeLinesSplit(s.currentLine, rendered); }
    }
    Insert(lines)
  }

  /** Deleting the previous preview happens only once an extmark id exists. */
  function ClearPreview(s: State): (r: seq<Effect>)
    ensures |r| <= 1
    ensures r == [] <==> !s.markSet
    ensures forall i :: 0 <= i < |r| ==> r[i] == DeletePreview
  {
    if s.markSet then [DeletePreview] else []
  }

  /** A multi-line value after one more non-empty line: the line itself
      when there was no text yet, otherwise the old text, a newline and the
      line. */
  function AppendLine(prior: Option<string>, line: string): (r: string)
    ensures prior.None? ==> r == line
    ensures prior.Some? ==>
      && |r| == |prior.value| + 1 + |line|
      && r[..|prior.value|] == prior.value
      && r[|prior.value|] == '\n'
      && r[|prior.value| + 1..] == line
  {
    if prior.Some? then prior.value + "\n" + line else line
  }

  /** Split into lines, an appended value is the old value's lines plus
      the new line. */
  lemma AppendLineSplit(prior: Option<string>, line: string)
    requires IsLine(line)
    ensures Split(AppendLine(prior, line)) == Lines(prior) + [line]
  {
    if prior.Some? {
      SplitSnoc(prior.value, line);
    } else {
      SplitLine(line);
    }
  }

  /** The lines a multi-line value already holds. */
  function Lines(prior: Option<string>): seq<string>
  {
    if prior.Some? then Split(prior.value) else []
  }

  /** What a single-line answer stores: no text for the empty answer. */
  function Stored(input: string): (r: Option<string>)
    ensures r.None? <==> input == ""
    ensures r.Some? ==> r.value == input
  {
    if input == "" then None else Some(input)
  }

  /** `execute`: starts a session for `snippet`, capturing the editor
      facts, with no inputs and the first parameter current. With no
      parameters it inserts at once; otherwise it prompts for the first
      parameter and previews the snippet rendered from empty inputs. */
  function Execute(s: State, snippet: Snippet, env: Env, currentLine: string): (r: Step)
    ensures r.state.snippet == snippet && r.state.env == env && r.state.currentLine == currentLine
    ensures r.state.useNui == s.useNui
    ensures r.state.inputs == map[] && r.state.paramIndex == 0
    ensures r.state.markSet == (s.markSet || |snippet.params| > 0)
    ensures Inserts(r.effects) <==> |snippet.params| == 0
    ensures Prompts(r.effects) <==> |snippet.params| > 0
    ensures |snippet.params| == 0 ==>
      r.effects == [Insert(ComposeLines(currentLine, RenderSnippet(snippet, map[], env)))]
    ensures |snippet.params| > 0 ==>
      r.effects == [Prompt(snippet.params[0].name), PreviewOf(r.state, map[])]
  {
    var t := s.(snippet := snippet, env := env, currentLine := currentLine,
                inputs := map[], paramIndex := 0);
    if |snippet.params| > 0 then
      var effects := [Prompt(snippet.params[0].name), PreviewOf(t, map[])];
      assert effects[0].Prompt?;
      Step(t.(markSet := true), effects)
    else
      var effects := [InsertOf(t)];
      assert effects[0].Insert?;
      Step(t, effects)
  }

  /** How `submit` updates inputs and index for the current parameter's
      kind. A single-line answer is stored, with no text for the empty
      answer, and the index always advances. A multi-line empty answer ends
      the parameter without touching the inputs; a non-empty one is
      appended and the same parameter stays current. Only the entry under
      `name` can change and no entry disappears. */
  function Advance(s: State, name: string, input: string): (t: State)
    requires Collecting(s)
    ensures t.snippet == s.snippet && t.env == s.env && t.currentLine == s.currentLine
    ensures t.useNui == s.useNui && t.markSet == s.markSet
    ensures CurrentParam(s).kind == SingleLine ==>
      && t.paramIndex == s.paramIndex + 1
      && name in t.inputs
      && t.inputs[name].text == Stored(input)
    ensures CurrentParam(s).kind == MultiLine && input == "" ==>
      t.paramIndex == s.paramIndex + 1 && t.inputs == s.inputs
    ensures CurrentParam(s).kind == MultiLine && input != "" ==>
      && t.paramIndex == s.paramIndex
      && name in t.inputs
      && t.inputs[name].text == Some(AppendLine(TextOf(s.inputs, name), input))
    ensures forall k :: k in s.inputs && k != name ==> k in t.inputs && t.inputs[k] == s.inputs[k]
    ensures forall k :: k in t.inputs ==> k in s.inputs || k == name
    ensures s.inputs.Keys <= t.inputs.Keys
    ensures t.paramIndex <= |s.snippet.params|
  {
    match CurrentParam(s).kind
    case SingleLine =>
      s.(inputs := s.inputs[name := InputValue(Stored(input))], paramIndex := s.paramIndex + 1)
    case MultiLine =>
      if input == "" then s.(paramIndex := s.paramIndex + 1)
      else s.(inputs := s.inputs[name := InputValue(Some(AppendLine(TextOf(s.inputs, name), input)))])
  }

  lemma EffectsConcat(a: seq<Effect>, b: seq<Effect>)
    ensures Prompts(a + b) <==> Prompts(a) || Prompts(b)
    ensures Inserts(a + b) <==> Inserts(a) || Inserts(b)
  {
    if Prompts(a + b) {
      var i :| 0 <= i < |a + b| && (a + b)[i].Prompt?;
      if i >= |a| { assert b[i - |a|].Prompt?; }
    }
    if Prompts(b) {
      var i :| 0 <= i < |b| && b[i].Prompt?;
      assert (a + b)[|a| + i].Prompt?;
    }
    if Inserts(a + b) {
      var i :| 0 <= i < |a + b| && (a + b)[i].Insert?;
      if i >= |a| { assert b[i - |a|].Insert?; }
    }
    if Inserts(b) {
      var i :| 0 <= i < |b| && b[i].Insert?;
      assert (a + b)[|a| + i].Insert?;
    }
    if Prompts(a) {
      var i :| 0 <= i < |a| && a[i].Prompt?;
      assert (a + b)[i].Prompt?;
    }
    if Inserts(a) {
      var i :| 0 <= i < |a| && a[i].Insert?;
      assert (a + b)[i].Insert?;
    }
  }

  /** What follows the preview once an answer is recorded. */
  function NextEffects(t: State): (r: seq<Effect>)
    ensures |r| == (if Collecting(t) then 1 else 2)
    ensures Collecting(t) ==> r[0] == Prompt(CurrentParam(t).name)
    ensures !Collecting(t) ==> r == [DeletePreview, InsertOf(t)]
    ensures Prompts(r) <==> Collecting(t)
    ensures Inserts(r) <==> !Collecting(t)
  {
    if Collecting(t) then
      var r := [Prompt(CurrentParam(t).name)];
      assert r[0].Prompt?;
      r
    else
      var r := [DeletePreview, InsertOf(t)];
      assert r[1].Insert?;
      r
  }

  /** The effects of `submit` once the answer is recorded, taking the
      state before (`s`) and after (`t`) the update: delete the old
      preview if any, preview `t`'s inputs, then prompt for `t`'s current
      parameter if one remains, or else delete the preview and insert. */
  function Respond(s: State, t: State): (r: seq<Effect>)
    ensures |r| == |ClearPreview(s)| + (if Collecting(t) then 2 else 3)
    ensures r[..|ClearPreview(s)|] == ClearPreview(s)
    ensures r[|ClearPreview(s)|] == PreviewOf(s, t.inputs)
    ensures Prompts(r) <==> Collecting(t)
    ensures Inserts(r) <==> !Collecting(t)
    ensures Collecting(t) ==> r[|r| - 1] == Prompt(CurrentParam(t).name)
    ensures !Collecting(t) ==> r[|r| - 2..] == [DeletePreview, InsertOf(t)]
  {
    var shown := ClearPreview(s) + [PreviewOf(s, t.inputs)];
    var next := NextEffects(t);
    EffectsConcat(shown, next);
    EffectsConcat(ClearPreview(s), [PreviewOf(s, t.inputs)]);
    shown + next
  }

  /** `submit`: records the answer `input` given under `name` as
      `Advance` describes, re-previews from the updated inputs, and then
      prompts for the new current parameter exactly when one remains, or
      else deletes the preview and inserts the snippet rendered from the
      final inputs. */
  function Submit(s: State, name: string, input: string): (r: Step)
    requires Collecting(s)
    ensures r.state == Advance(s, name, input).(markSet := true)
    ensures |r.effects| == |ClearPreview(s)| + (if Collecting(r.state) then 2 else 3)
    ensures r.effects[..|ClearPreview(s)|] == ClearPreview(s)
    ensures r.effects[|ClearPreview(s)|] == PreviewOf(s, r.state.inputs)
    ensures Prompts(r.effects) <==> Collecting(r.state)
    ensures Inserts(r.effects) <==> !Collecting(r.state)
    ensures Collecting(r.state) ==> r.effects[|r.effects| - 1] == Prompt(CurrentParam(r.state).name)
    ensures !Collecting(r.state) ==> r.effects[|r.effects| - 2..] == [DeletePreview, InsertOf(r.state)]
  {
    var t := Advance(s, name, input);
    var u := t.(markSet := true);
    assert Collecting(u) == Collecting(t);
    assert InsertOf(u) == InsertOf(t);
    assert Collecting(t) ==> CurrentParam(u) == CurrentParam(t);
    Step(u, Respond(s, t))
  }

  /** The inputs a keystroke previews: a copy of the inputs with the draft
      under `name`, kept verbatim (the empty draft included) for a
      single-line parameter, appended to the collected text for a
      multi-line one. */
  function Draft(s: State, name: string, input: string): (r: Inputs)
    requires Collecting(s)
    ensures name in r
    ensures CurrentParam(s).kind == SingleLine ==> r[name].text == Some(input)
    ensures CurrentParam(s).kind == MultiLine ==>
      r[name].text == Some(AppendLine(TextOf(s.inputs, name), input))
    ensures forall k :: k in s.inputs && k != name ==> k in r && r[k] == s.inputs[k]
    ensures forall k :: k in r ==> k in s.inputs || k == name
  {
    match CurrentParam(s).kind
    case SingleLine => s.inputs[name := InputValue(Some(input))]
    case MultiLine => s.inputs[name := InputValue(Some(AppendLine(TextOf(s.inputs, name), input)))]
  }

  /** `changed`: re-previews from the draft merged into a copy of the
      inputs. Apart from the stored extmark id nothing in the state
      changes; it never prompts and never inserts. */
  function Changed(s: State, name: string, input: string): (r: Step)
    requires Collecting(s)
    ensures r.state == s.(markSet := true)
    ensures r.state.inputs == s.inputs && r.state.paramIndex == s.paramIndex
    ensures r.effects == ClearPreview(s) + [PreviewOf(s, Draft(s, name, input))]
    ensures !Prompts(r.effects) && !Inserts(r.effects)
  {
    var effects := ClearPreview(s) + [PreviewOf(s, Draft(s, name, input))];
    assert !Prompts(effects) && !Inserts(effects) by {
      forall i | 0 <= i < |effects| ensures !effects[i].Prompt? && !effects[i].Insert? {
        if i < |ClearPreview(s)| { assert effects[i] == DeletePreview; }
      }
    }
    Step(s.(markSet := true), effects)
  }

  /** `close`: deletes the preview if one was ever placed, and nothing
      else; the state is untouched and nothing is prompted, shown or
      inserted. */
  function Close(s: State): (r: Step)
    ensures r.state == s
    ensures s.markSet <==> r.effects == [DeletePreview]
    ensures !s.markSet <==> r.effects == []
    ensures !Prompts(r.effects) && !Inserts(r.effects) && !Shows(r.effects)
  {
    Step(s, ClearPreview(s))
  }

  // ---------------------------------------------------------------------
  // The prompt protocol: every answer is submitted under the label it was
  // prompted with, which is the current parameter's name.

  /** The state after answering the current prompt with `input`. */
  function Next(s: State, input: string): State
    requires Collecting(s)
  {
    Advance(s, CurrentParam(s).name, input).(markSet := true)
  }

  /** `Next` is the state `submit` leaves when the answer arrives under
      the label it was prompted with. */
  lemma NextIsSubmit(s: State, input: string)
    requires Collecting(s)
    ensures Next(s, input) == Submit(s, CurrentParam(s).name, input).state
  {
  }

  /** Answering prompts in turn while parameters remain; answers after the
      last parameter are never asked for. */
  function Run(s: State, answers: seq<string>): State
    decreases |answers|
  {
    if |answers| == 0 || !Collecting(s) then s
    else Run(Next(s, answers[0]), answers[1..])
  }

  /** Typing drafts at the current prompt without submitting. */
  function Keystrokes(s: State, drafts: seq<string>): State
    requires Collecting(s)
    decreases |drafts|
  {
    if |drafts| == 0 then s
    else
      var t := Changed(s, CurrentParam(s).name, drafts[0]).state;
      Keystrokes(t, drafts[1..])
  }

  /** The session invariant: the index stays within the parameters, and
      every single-line parameter already passed has an entry. */
  ghost predicate Inv(s: State)
  {
    && s.paramIndex <= |s.snippet.params|
    && forall j :: 0 <= j < s.paramIndex && s.snippet.params[j].kind == SingleLine ==>
         s.snippet.params[j].name in s.inputs
  }

  lemma ExecuteEstablishesInv(s: State, snippet: Snippet, env: Env, currentLine: string)
    ensures Inv(Execute(s, snippet, env, currentLine).state)
    ensures Collecting(Execute(s, snippet, env, currentLine).state) <==> |snippet.params| > 0
  {
  }

  lemma {:induction false} AnswerPreservesInv(s: State, input: string)
    requires Inv(s) && Collecting(s)
    ensures Inv(Next(s, input))
  {
    var t := Next(s, input);
    forall j | 0 <= j < t.paramIndex && t.snippet.params[j].kind == SingleLine
      ensures t.snippet.params[j].name in t.inputs
    {
      if j < s.paramIndex {
        assert s.snippet.params[j].name in s.inputs;
      } else {
        assert j == s.paramIndex;
      }
    }
  }

  /** Answering any sequence of prompts keeps the invariant, so the index
      never passes the number of parameters. */
  lemma {:induction false} RunPreservesInv(s: State, answers: seq<string>)
    requires Inv(s)
    ensures Inv(Run(s, answers))
    decreases |answers|
  {
    if |answers| > 0 && Collecting(s) {
      AnswerPreservesInv(s, answers[0]);
      RunPreservesInv(Next(s, answers[0]), answers[1..]);
    }
  }

  /** Keystrokes never change the collected inputs or the index. */
  lemma {:induction false} KeystrokesKeepInputs(s: State, drafts: seq<string>)
    requires Collecting(s)
    ensures Keystrokes(s, drafts).inputs == s.inputs
    ensures Keystrokes(s, drafts).paramIndex == s.paramIndex
    decreases |drafts|
  {
    if |drafts| > 0 {
      var t := Changed(s, CurrentParam(s).name, drafts[0]).state;
      KeystrokesKeepInputs(t, drafts[1..]);
    }
  }

  /** For a non-empty answer the keystroke preview of the final draft is
      the preview `submit` shows after storing it. */
  lemma ChangedPreviewsSubmit(s: State, name: string, input: string)
    requires Collecting(s) && input != ""
    ensures var c := Changed(s, name, input).effects;
      c[|c| - 1] == Submit(s, name, input).effects[|ClearPreview(s)|]
  {
    var t := Advance(s, name, input);
    assert Draft(s, name, input) == t.inputs;
  }

  /** The empty single-line draft is previewed as empty text, whereas
      submitting it stores no text at all. */
  lemma EmptySingleLineDraftDiffersFromSubmit(s: State, name: string)
    requires Collecting(s) && CurrentParam(s).kind == SingleLine
    ensures Draft(s, name, "")[name].text == Some("")
    ensures Submit(s, name, "").state.inputs[name].text == None
  {
  }

  /** The text a multi-line value holds, as a list of zero or one items. */
  function Seed(prior: Option<string>): seq<string>
  {
    if prior.Some? then [prior.value] else []
  }

  /** The value a multi-line parameter holds after the non-empty lines
      `lines`, given the text it held before: all of them joined with
      newlines, or still nothing when there is nothing to join. */
  function Gathered(prior: Option<string>, lines: seq<string>): Option<string>
  {
    var all := Seed(prior) + lines;
    if |all| == 0 then None else Some(Join(all))
  }

  /** One non-empty multi-line answer appends to the entry under the
      parameter's name and keeps the same parameter current. */
  lemma MultiLineLineStep(s: State, line: string)
    requires Collecting(s) && CurrentParam(s).kind == MultiLine && line != ""
    ensures var t := Next(s, line);
      var n := CurrentParam(s).name;
      && Collecting(t) && t.snippet == s.snippet && t.paramIndex == s.paramIndex
      && CurrentParam(t) == CurrentParam(s)
      && TextOf(t.inputs, n) == Some(AppendLine(TextOf(s.inputs, n), line))
      && (forall k :: k in s.inputs && k != n ==> k in t.inputs && t.inputs[k] == s.inputs[k])
      && (forall k :: k in t.inputs ==> k in s.inputs || k == n)
  {
  }

  /** Appending the first line and gathering the rest gathers them all. */
  lemma GatheredStep(prior: Option<string>, lines: seq<string>)
    requires |lines| > 0
    ensures Gathered(Some(AppendLine(prior, lines[0])), lines[1..]) == Gathered(prior, lines)
  {
    var seed := Seed(prior);
    var mid := AppendLine(prior, lines[0]);
    assert mid == Join(seed + [lines[0]]) by {
      if prior.Some? {
        assert seed + [lines[0]] == [prior.value, lines[0]];
        assert [prior.value, lines[0]][1..] == [lines[0]];
      }
    }
    assert seed + lines == (seed + [lines[0]]) + lines[1..];
    if |lines| > 1 {
      JoinConcat(seed + [lines[0]], lines[1..]);
      assert ([mid] + lines[1..])[1..] == lines[1..];
      assert Join([mid] + lines[1..]) == mid + "\n" + Join(lines[1..]);
    } else {
      assert lines == [lines[0]];
      assert Seed(Some(mid)) + lines[1..] == [mid];
    }
  }

  /** Answering a multi-line prompt with non-empty lines and then the
      empty line gathers those lines under its name, moves to the next
      parameter, and leaves every other entry as it was. */
  lemma {:induction false} MultiLineCollects(s: State, lines: seq<string>)
    requires Collecting(s) && CurrentParam(s).kind == MultiLine
    requires forall i :: 0 <= i < |lines| ==> lines[i] != ""
    ensures var t := Run(s, lines + [""]);
      var n := CurrentParam(s).name;
      && t.paramIndex == s.paramIndex + 1
      && t.snippet == s.snippet
      && TextOf(t.inputs, n) == Gathered(TextOf(s.inputs, n), lines)
      && (forall k :: k in s.inputs && k != n ==> k in t.inputs && t.inputs[k] == s.inputs[k])
      && (forall k :: k in t.inputs ==> k in s.inputs || k == n)
    decreases |lines|
  {
    if |lines| == 0 {
      assert lines + [""] == [""];
      assert Run(s, [""]) == Run(Next(s, ""), []);
    } else {
      var s1 := Next(s, lines[0]);
      assert (lines + [""])[1..] == lines[1..] + [""];
      assert Run(s, lines + [""]) == Run(s1, lines[1..] + [""]);
      MultiLineLineStep(s, lines[0]);
      MultiLineCollects(s1, lines[1..]);
      GatheredStep(TextOf(s.inputs, CurrentParam(s).name), lines);
    }
  }

  /** Answering "a", "b" and then "" to a multi-line prompt with no text
      yet stores "a\nb". */
  lemma MultiLineExample(s: State)
    requires Collecting(s) && CurrentParam(s).kind == MultiLine
    requires CurrentParam(s).name !in s.inputs
    ensures var t := Run(s, ["a", "b", ""]);
      && t.paramIndex == s.paramIndex + 1
      && CurrentParam(s).name in t.inputs
      && t.inputs[CurrentParam(s).name].text == Some("a\nb")
  {
    var lines := ["a", "b"];
    assert lines + [""] == ["a", "b", ""];
    MultiLineCollects(s, lines);
    GatheredTwoLines(lines);
  }

  lemma GatheredTwoLines(lines: seq<string>)
    requires lines == ["a", "b"]
    ensures Gathered(None, lines) == Some("a\nb")
  {
    assert Seed(None) + lines == lines;
    assert lines[1..] == ["b"];
    assert Join(["b"]) == "b";
    assert Join(lines) == "a" + "\n" + "b";
    assert "a" + "\n" + "b" == "a\nb";
    assert Gathered(None, lines) == Some(Join(lines));
  }

  /** A multi-line parameter answered at once with the empty line is
      passed without leaving any entry: only single-line parameters are
      guaranteed an entry once passed. */
  lemma SkippedMultiLineHasNoEntry(s: State)
    requires Collecting(s) && CurrentParam(s).kind == MultiLine
    requires CurrentParam(s).name !in s.inputs
    ensures var t := Next(s, "");
      t.paramIndex == s.paramIndex + 1 && CurrentParam(s).name !in t.inputs
  {
  }

  ghost predicate AllSingleLine(params: seq<Param>)
  {
    forall j :: 0 <= j < |params| ==> params[j].kind == SingleLine
  }

  ghost predicate UniqueNames(params: seq<Param>)
  {
    forall i, j :: 0 <= i < j < |params| ==> params[i].name != params[j].name
  }

  /** No parameter from index `lo` up to `hi` is named `key`. */
  ghost predicate NotNamedBetween(params: seq<Param>, lo: nat, hi: nat, key: string)
    requires lo <= hi <= |params|
  {
    forall j :: lo <= j < hi ==> params[j].name != key
  }

  /** One single-line answer stores its value and advances. */
  lemma SingleLineStep(s: State, input: string)
    requires Collecting(s) && CurrentParam(s).kind == SingleLine
    ensures var t := Next(s, input);
      var n := CurrentParam(s).name;
      && t.snippet == s.snippet && t.paramIndex == s.paramIndex + 1
      && n in t.inputs && t.inputs[n].text == Stored(input)
      && (forall k :: k in s.inputs && k != n ==> k in t.inputs && t.inputs[k] == s.inputs[k])
  {
  }

  /** Entry `ps[j].name` of `m` holds what answer `j - lo` stores, for
      every parameter from `lo` on that was answered. */
  ghost predicate StoresAnswers(ps: seq<Param>, lo: nat, answers: seq<string>, m: Inputs)
    requires lo + |answers| <= |ps|
  {
    forall j :: lo <= j < lo + |answers| ==>
      ps[j].name in m && m[ps[j].name].text == Stored(answers[j - lo])
  }

  /** Every entry of `before` whose key names no parameter in `lo..hi` is
      still in `after`, unchanged. */
  ghost predicate KeepsOthers(ps: seq<Param>, lo: nat, hi: nat, before: Inputs, after: Inputs)
    requires lo <= hi <= |ps|
  {
    forall k :: k in before && NotNamedBetween(ps, lo, hi, k) ==> k in after && after[k] == before[k]
  }

  /** Gluing one stored answer at `lo` to the answers stored after it. */
  lemma StoresAnswersCons(ps: seq<Param>, lo: nat, answers: seq<string>,
                          m0: Inputs, m1: Inputs, m2: Inputs)
    requires |answers| > 0 && lo + |answers| <= |ps| && UniqueNames(ps)
    requires ps[lo].name in m1 && m1[ps[lo].name].text == Stored(answers[0])
    requires forall k :: k in m0 && k != ps[lo].name ==> k in m1 && m1[k] == m0[k]
    requires StoresAnswers(ps, lo + 1, answers[1..], m2)
    requires KeepsOthers(ps, lo + 1, lo + |answers|, m1, m2)
    ensures StoresAnswers(ps, lo, answers, m2)
    ensures KeepsOthers(ps, lo, lo + |answers|, m0, m2)
  {
    var n := ps[lo].name;
    assert NotNamedBetween(ps, lo + 1, lo + |answers|, n);
    forall j | lo <= j < lo + |answers|
      ensures ps[j].name in m2 && m2[ps[j].name].text == Stored(answers[j - lo])
    {
      if j > lo {
        assert answers[1..][j - (lo + 1)] == answers[j - lo];
      }
    }
    forall k | k in m0 && NotNamedBetween(ps, lo, lo + |answers|, k)
      ensures k in m2 && m2[k] == m0[k]
    {
      assert ps[lo].name != k;
      assert NotNamedBetween(ps, lo + 1, lo + |answers|, k);
    }
  }

  /** Answering single-line prompts in turn stores each answer under its
      parameter's name (no text for an empty answer), advances once per
      answer, and leaves every entry of another name as it was. */
  lemma {:induction false} SingleLineRun(s: State, answers: seq<string>)
    requires AllSingleLine(s.snippet.params) && UniqueNames(s.snippet.params)
    requires s.paramIndex + |answers| <= |s.snippet.params|
    ensures var t := Run(s, answers);
      && t.snippet == s.snippet
      && t.paramIndex == s.paramIndex + |answers|
      && StoresAnswers(s.snippet.params, s.paramIndex, answers, t.inputs)
      && KeepsOthers(s.snippet.params, s.paramIndex, s.paramIndex + |answers|, s.inputs, t.inputs)
    decreases |answers|
  {
    var ps := s.snippet.params;
    var lo := s.paramIndex;
    if |answers| > 0 {
      var s1 := Next(s, answers[0]);
      SingleLineStep(s, answers[0]);
      SingleLineRun(s1, answers[1..]);
      var t := Run(s1, answers[1..]);
      assert Run(s, answers) == t;
      StoresAnswersCons(ps, lo, answers, s.inputs, s1.inputs, t.inputs);
    }
  }

  /** A whole session over single-line parameters: starting it and
      answering every prompt leaves it complete, with every answer stored
      under its parameter's name. */
  lemma SingleLineSession(s: State, snippet: Snippet, env: Env, currentLine: string, answers: seq<string>)
    requires AllSingleLine(snippet.params) && UniqueNames(snippet.params)
    requires |answers| == |snippet.params|
    ensures var t := Run(Execute(s, snippet, env, currentLine).state, answers);
      && !Collecting(t)
      && t.paramIndex == |snippet.params|
      && (forall j :: 0 <= j < |answers| ==>
            snippet.params[j].name in t.inputs && t.inputs[snippet.params[j].name].text == Stored(answers[j]))
  {
    var e := Execute(s, snippet, env, currentLine).state;
    assert e.paramIndex == 0 && e.snippet == snippet;
    SingleLineRun(e, answers);
    var t := Run(e, answers);
    assert StoresAnswers(snippet.params, 0, answers, t.inputs);
  }
}
