/** Rendering a snippet and turning the rendered text into the lines that
    are shown as a preview or appended to the buffer. */
module Render {
  import opened Types
  import opened Text

  /** The editor facts captured when a session starts: the file's base
      name, its filetype and the working directory. */
  datatype Env = Env(fileName: string, fileType: string, cwd: string)

  /** The context every render call receives. The post-cursor entry is
      never supplied. */
  function RenderContext(env: Env): (c: Context)
    ensures c.postCursor.None?
    ensures c.fileName == env.fileName && c.fileType == env.fileType && c.cwd == env.cwd
  {
    Context(env.fileName, env.fileType, env.cwd, None)
  }

  /** The snippet's own render output with one leading newline removed:
      the result is the raw output, or the raw output minus its first
      character exactly when that character is a newline. */
  function RenderSnippet(snippet: Snippet, inputs: Inputs, env: Env): (r: string)
    ensures var raw := snippet.render(inputs, RenderContext(env));
      (raw == r || raw == "\n" + r)
      && (raw == "\n" + r <==> (|raw| > 0 && raw[0] == '\n'))
  {
    var raw := snippet.render(inputs, RenderContext(env));
    var r := StripLeadingNewline(raw);
    assert |raw| > |r| ==> raw == "\n" + r by {
      if |raw| > |r| {
        assert raw == [raw[0]] + raw[1..];
      }
    }
    r
  }

  /** The rendered text as buffer lines, the first one prefixed with the
      line the cursor was on; there is one line per newline-separated
      segment of the rendered text. */
  function ComposeLines(currentLine: string, rendered: string): (r: seq<string>)
    ensures |r| == NewlineCount(rendered) + 1
    ensures r[1..] == Split(rendered)[1..]
  {
    var segs := Split(rendered);
    [currentLine + segs[0]] + segs[1..]
  }

  /** Joining the composed lines gives back the cursor line followed by
      the rendered text. */
  lemma ComposeLinesJoin(currentLine: string, rendered: string)
    ensures Join(ComposeLines(currentLine, rendered)) == currentLine + rendered
  {
    var segs := Split(rendered);
    var r := ComposeLines(currentLine, rendered);
    JoinSplit(rendered);
    if |segs| > 1 {
      assert r[1..] == segs[1..];
      assert Join(segs) == segs[0] + "\n" + Join(segs[1..]);
    }
  }

  /** When the cursor line holds no newline, the composed lines are just
      the segments of the cursor line followed by the rendered text. */
  lemma ComposeLinesSplit(currentLine: string, rendered: string)
    requires IsLine(currentLine)
    ensures ComposeLines(currentLine, rendered) == Split(currentLine + rendered)
  {
    SplitPrefix(currentLine, rendered);
  }

  /** How a preview shows an empty line: as a single space. */
  function Blank(line: string): (r: string)
    ensures r != ""
    ensures r == line || (line == "" && r == " ")
  {
    if line == "" then " " else line
  }

  /** Number of padding lines a preview starts with. */
  function Padding(useNui: bool): nat
  {
    if useNui then 2 else 0
  }

  /** The virtual lines of a preview: the composed lines with every empty
      line shown as a space, after two space-only padding lines when the
      floating input widget is in use. No preview line is empty. */
  function PreviewLines(useNui: bool, currentLine: string, rendered: string): (r: seq<string>)
    ensures |r| == Padding(useNui) + NewlineCount(rendered) + 1
    ensures forall i :: 0 <= i < |r| ==> r[i] != ""
  {
    var lines := ComposeLines(currentLine, rendered);
    var pad: seq<string> := if useNui then [" ", " "] else [];
    pad + seq(|lines|, i requires 0 <= i < |lines| => Blank(lines[i]))
  }

  /** Line by line, a preview is its padding followed by the composed
      lines, each either shown as it is or, when empty, as a space. */
  lemma PreviewLinesShape(useNui: bool, currentLine: string, rendered: string)
    ensures var lines := ComposeLines(currentLine, rendered);
      var r := PreviewLines(useNui, currentLine, rendered);
      && |r| == Padding(useNui) + |lines|
      && (forall i :: 0 <= i < Padding(useNui) ==> r[i] == " ")
      && (forall i :: 0 <= i < |lines| ==> r[Padding(useNui) + i] == Blank(lines[i]))
  {
  }

  /** Without padding and without empty lines, the preview shows exactly
      the lines that insertion appends. */
  lemma PreviewMatchesInsert(currentLine: string, rendered: string)
    requires forall i :: 0 <= i < |ComposeLines(currentLine, rendered)| ==> ComposeLines(currentLine, rendered)[i] != ""
    ensures PreviewLines(false, currentLine, rendered) == ComposeLines(currentLine, rendered)
  {
  }

  /** An empty line is where preview and insertion part ways: a rendered
      text ending in a newline makes the last inserted line empty, while
      the preview shows it as a space. */
  lemma {:induction false} PreviewBlanksTrailingLine(currentLine: string, body: string)
    ensures var lines := ComposeLines(currentLine, body + "\n");
      var preview := PreviewLines(false, currentLine, body + "\n");
      && lines[|lines| - 1] == ""
      && preview[|preview| - 1] == " "
  {
    var rendered := body + "\n";
    var lines := ComposeLines(currentLine, rendered);
    JoinSplit(rendered);
    SplitTrailingNewline(body);
    assert |lines| >= 2;
  }

  /** A text ending in a newline splits with an empty last segment. */
  lemma {:induction false} SplitTrailingNewline(body: string)
    ensures |Split(body + "\n")| >= 2
    ensures Split(body + "\n")[|Split(body + "\n")| - 1] == ""
    decreases |body|
  {
    var s := body + "\n";
    if |body| == 0 {
      assert s == "\n";
      assert s[1..] == "";
    } else {
      assert s[1..] == body[1..] + "\n";
      SplitTrailingNewline(body[1..]);
    }
  }
}
