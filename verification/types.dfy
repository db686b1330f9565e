/** The records a snippet definition is made of: its parameters, the
    inputs collected for them, the context handed to `render`, and the
    snippet itself with its render function. */
module Types {

  /** A value that may be absent; stands for TypeScript's `T | undefined`. */
  datatype Option<T> = None | Some(value: T)

  /** `o ?? fallback`: the value when there is one, the fallback otherwise. */
  function OrElse<T>(o: Option<T>, fallback: T): T
  {
    if o.Some? then o.value else fallback
  }

  /** The two kinds of parameter a snippet can declare. */
  datatype ParamKind = SingleLine | MultiLine

  /** A named input slot of a snippet; the name is both the prompt label and
      the key under which the answer is stored. */
  datatype Param = Param(name: string, kind: ParamKind)

  /** The value collected for one parameter. `text` is `None` when the
      entry exists but carries no text. */
  datatype InputValue = InputValue(text: Option<string>)

  /** Collected inputs by parameter name. A name that is not a key is
      "missing", which is different from a key whose text is `None`. */
  type Inputs = map<string, InputValue>

  /** The extra inputs every render call receives. `fileName`, `fileType`
      and `cwd` are `{ text }` records in the plugin; each is flattened to
      its string here. `postCursor` is part of the declared shape but no
      caller ever fills it in. */
  datatype Context = Context(fileName: string, fileType: string, cwd: string, postCursor: Option<string>)

  /** One snippet definition: an optional display name, an optional static
      description, the ordered parameters, and a deterministic render
      function, left uninterpreted. */
  datatype Snippet = Snippet(
    name: Option<string>,
    text: Option<string>,
    params: seq<Param>,
    render: (Inputs, Context) -> string)

  /** The text an entry carries, with a missing key read as no text. */
  function TextOf(inputs: Inputs, key: string): (r: Option<string>)
    ensures r.Some? ==> key in inputs && inputs[key].text == r
    ensures key in inputs ==> r == inputs[key].text
  {
    if key in inputs then inputs[key].text else None
  }
}
