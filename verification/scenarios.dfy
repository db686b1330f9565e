/** A complete expansion, from starting the session to insertion, for a
    snippet with one single-line parameter. */
module Scenarios {
  import opened Types
  import opened Text
  import opened Render
  import opened Session

  /** Renders `foo(<x>)`, with nothing between the parentheses when `x`
      has no text. */
  function FooRender(inputs: Inputs, context: Context): string
  {
    "foo(" + OrElse(TextOf(inputs, "x"), "") + ")"
  }

  function FooSnippet(): Snippet
  {
    Snippet(None, None, [Param("x", SingleLine)], FooRender)
  }

  lemma FooRenders(env: Env, inputs: Inputs, x: string)
    requires (inputs == map[] && x == "") || (inputs == map["x" := InputValue(Some("1"))] && x == "1")
    ensures RenderSnippet(FooSnippet(), inputs, env) == "foo(" + x + ")"
  {
    var raw := FooRender(inputs, RenderContext(env));
    assert OrElse(TextOf(inputs, "x"), "") == x;
    assert raw == "foo(" + x + ")";
    assert raw[0] == 'f';
  }

  /** The composed line of `foo(<x>)` rendered on the line "call ". */
  lemma FooLine(x: string)
    requires x == "" || x == "1"
    ensures ComposeLines("call ", "foo(" + x + ")") == ["call foo(" + x + ")"]
  {
    var line := "call foo(" + x + ")";
    assert "call " + ("foo(" + x + ")") == line;
    assert IsLine("call ");
    assert IsLine(line);
    ComposeLinesSplit("call ", "foo(" + x + ")");
    SplitLine(line);
  }

  /** Starting `foo` on the line "call " prompts for "x" and, without
      the floating input widget, previews "call foo()". */
  lemma FooStart(s: State, env: Env)
    requires !s.useNui
    ensures Execute(s, FooSnippet(), env, "call ").effects == [Prompt("x"), ShowPreview(["call foo()"])]
  {
    var e := Execute(s, FooSnippet(), env, "call ");
    FooRenders(env, map[], "");
    FooLine("");
    assert "foo(" + "" + ")" == "foo()";
    assert "call foo(" + "" + ")" == "call foo()";
    assert e.state.snippet == FooSnippet();
    PreviewMatchesInsert("call ", "foo()");
    assert !e.state.useNui && e.state.currentLine == "call " && e.state.env == env;
    assert PreviewOf(e.state, map[]) == ShowPreview(["call foo()"]);
  }

  /** Answering "1" ends that session by deleting the preview and
      appending the single line "call foo(1)". */
  lemma FooAnswer(s: State, env: Env)
    ensures var e := Execute(s, FooSnippet(), env, "call ");
      var u := Submit(e.state, "x", "1");
      && !Collecting(u.state)
      && u.effects[|u.effects| - 2..] == [DeletePreview, Insert(["call foo(1)"])]
  {
    var e := Execute(s, FooSnippet(), env, "call ");
    FooSubmit(e.state, env);
  }

  lemma FooSubmit(t: State, env: Env)
    requires t.snippet == FooSnippet() && t.paramIndex == 0 && t.inputs == map[]
    requires t.currentLine == "call " && t.env == env
    ensures var u := Submit(t, "x", "1");
      && !Collecting(u.state)
      && u.effects[|u.effects| - 2..] == [DeletePreview, Insert(["call foo(1)"])]
  {
    var u := Submit(t, "x", "1");
    FooStored(t);
    assert u.state == Advance(t, "x", "1").(markSet := true);
    FooInsert(u.state, env);
  }

  /** The state the answer leaves: "x" holds "1" and nothing is left. */
  lemma FooStored(t: State)
    requires t.snippet == FooSnippet() && t.paramIndex == 0 && t.inputs == map[]
    ensures var u := Advance(t, "x", "1");
      && u.paramIndex == 1 && u.snippet == t.snippet
      && u.currentLine == t.currentLine && u.env == t.env
      && u.inputs == map["x" := InputValue(Some("1"))]
  {
    var u := Advance(t, "x", "1");
    assert CurrentParam(t) == Param("x", SingleLine);
    assert u.inputs.Keys == {"x"};
    assert u.inputs["x"] == InputValue(Some("1"));
  }

  /** Inserting from that state appends "call foo(1)". */
  lemma FooInsert(u: State, env: Env)
    requires u.snippet == FooSnippet() && u.inputs == map["x" := InputValue(Some("1"))]
    requires u.currentLine == "call " && u.env == env
    ensures InsertOf(u) == Insert(["call foo(1)"])
  {
    FooRenders(env, u.inputs, "1");
    FooLine("1");
    assert "foo(" + "1" + ")" == "foo(1)";
    assert "call foo(" + "1" + ")" == "call foo(1)";
  }
}
