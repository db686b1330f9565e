/** Snippet catalogues: the per-filetype module cache, looking a snippet
    up by name to start a session, and the completion items with their
    description text. */
module Catalog {
  import opened Types
  import opened Text
  import opened Render
  import opened Session

  /** The cache key of a filetype: a buffer without a filetype uses "_". */
  function FileTypeKey(fileType: string): (r: string)
    ensures r != ""
    ensures fileType == "" ==> r == "_"
    ensures fileType != "" ==> r == fileType
  {
    if fileType == "" then "_" else fileType
  }

  /** Two filetypes share a cache slot exactly when they are equal or are
      the empty filetype and "_". */
  lemma FileTypeKeyShared(a: string, b: string)
    ensures FileTypeKey(a) == FileTypeKey(b) <==>
      (a == b || (a == "" && b == "_") || (a == "_" && b == ""))
  {
  }

  /** One export of a snippet module: the snippet under its trigger word. */
  datatype NamedSnippet = NamedSnippet(key: string, snippet: Snippet)

  /** A module's default export, in enumeration order. The export is a
      JavaScript object, so in the plugin its keys are distinct
      (`UniqueKeys`); the sequence itself does not demand it. */
  type Module = seq<NamedSnippet>

  ghost predicate UniqueKeys(m: Module)
  {
    forall i, j :: 0 <= i < j < |m| ==> m[i].key != m[j].key
  }

  /** Loaded modules by filetype key. */
  type Cache = map<string, Module>

  datatype Loaded = Loaded(snippets: Module, cache: Cache)

  /** `loadSnippetModule`: the module for the buffer's filetype, loaded at
      most once. `load` stands for finding and importing the module file
      for a key; `None` means there is no such file, and then the empty
      module is cached. A cached key is answered from the cache, which is
      then unchanged; otherwise exactly that key is added. */
  function LoadModule(cache: Cache, fileType: string, load: string -> Option<Module>): (r: Loaded)
    ensures FileTypeKey(fileType) in r.cache && r.cache[FileTypeKey(fileType)] == r.snippets
    ensures FileTypeKey(fileType) in cache ==> r.cache == cache
    ensures FileTypeKey(fileType) !in cache && load(FileTypeKey(fileType)).Some? ==>
      r.snippets == load(FileTypeKey(fileType)).value
    ensures FileTypeKey(fileType) !in cache && load(FileTypeKey(fileType)).None? ==> r.snippets == []
    ensures r.cache.Keys == cache.Keys + {FileTypeKey(fileType)}
    ensures forall k :: k in cache ==> r.cache[k] == cache[k]
  {
    var key := FileTypeKey(fileType);
    if key in cache then Loaded(cache[key], cache)
    else
      var m := OrElse(load(key), []);
      Loaded(m, cache[key := m])
  }

  /** Loading again, whatever the loader, answers the same module and
      leaves the cache as it was. */
  lemma LoadModuleIdempotent(cache: Cache, fileType: string, load: string -> Option<Module>, again: string -> Option<Module>)
    ensures var first := LoadModule(cache, fileType, load);
      var second := LoadModule(first.cache, fileType, again);
      second == first
  {
  }

  /** `module[name]`: the snippet exported under `name`, if any. */
  function Lookup(m: Module, name: string): (r: Option<Snippet>)
    ensures r.Some? ==> exists i :: 0 <= i < |m| && m[i].key == name && m[i].snippet == r.value
    ensures r.None? <==> forall i :: 0 <= i < |m| ==> m[i].key != name
  {
    if |m| == 0 then None
    else if m[0].key == name then Some(m[0].snippet)
    else
      var r := Lookup(m[1..], name);
      assert forall i :: 1 <= i < |m| ==> m[i] == m[1..][i - 1];
      r
  }

  /** In a module with distinct keys, looking up an export's key finds that
      export's snippet. */
  lemma LookupUnique(m: Module, i: nat)
    requires UniqueKeys(m) && i < |m|
    ensures Lookup(m, m[i].key) == Some(m[i].snippet)
  {
  }

  /** `execute` by name: loads the module of the session's filetype and
      starts a session for the snippet exported under `name`. An unknown
      name is not handled by the dispatcher (it fails reading the missing
      snippet's parameters), so it is required away. */
  function ExecuteNamed(s: State, cache: Cache, load: string -> Option<Module>,
                        name: string, env: Env, currentLine: string): (r: (Cache, Step))
    requires Lookup(LoadModule(cache, env.fileType, load).snippets, name).Some?
    ensures r.0 == LoadModule(cache, env.fileType, load).cache
    ensures exists i :: (0 <= i < |LoadModule(cache, env.fileType, load).snippets|
      && LoadModule(cache, env.fileType, load).snippets[i].key == name
      && r.1 == Execute(s, LoadModule(cache, env.fileType, load).snippets[i].snippet, env, currentLine))
  {
    var loaded := LoadModule(cache, env.fileType, load);
    var snippet := Lookup(loaded.snippets, name).value;
    (loaded.cache, Execute(s, snippet, env, currentLine))
  }

  /** What a completion item describes: the static text when there is
      one, otherwise the snippet rendered from empty inputs. */
  function Description(snippet: Snippet, env: Env): (r: string)
    ensures snippet.text.Some? ==> r == snippet.text.value
    ensures var raw := snippet.render(map[], RenderContext(env));
      snippet.text.None? ==>
        && (raw == r || raw == "\n" + r)
        && (raw == "\n" + r <==> (|raw| > 0 && raw[0] == '\n'))
  {
    OrElse(snippet.text, RenderSnippet(snippet, map[], env))
  }

  /** The `info` of a completion item: the description, headed by the
      display name in brackets and a blank line when there is one. */
  function Info(snippet: Snippet, env: Env): (r: string)
    ensures var d := Description(snippet, env);
      && |d| <= |r|
      && r[|r| - |d|..] == d
      && (snippet.name.None? ==> r == d)
      && (snippet.name.Some? ==> r[..|r| - |d|] == "[" + snippet.name.value + "]\n\n")
  {
    var d := Description(snippet, env);
    if snippet.name.Some? then
      var head := "[" + snippet.name.value + "]\n\n";
      assert (head + d)[..|head|] == head;
      assert (head + d)[|head|..] == d;
      head + d
    else d
  }

  /** Read as lines, a named snippet's info is the bracketed name, an
      empty line, and then the lines of its description. */
  lemma InfoLines(snippet: Snippet, env: Env)
    requires snippet.name.Some? && IsLine(snippet.name.value)
    ensures Split(Info(snippet, env)) ==
      ["[" + snippet.name.value + "]", ""] + Split(Description(snippet, env))
  {
    var title := "[" + snippet.name.value + "]";
    var d := Description(snippet, env);
    assert IsLine(title) by {
      assert forall i :: 0 <= i < |title| ==> title[i] == '[' || title[i] == ']' || title[i] in snippet.name.value by {
        forall i | 0 <= i < |title|
          ensures title[i] == '[' || title[i] == ']' || title[i] in snippet.name.value
        {
          if 0 < i < |title| - 1 {
            assert title[i] == snippet.name.value[i - 1];
          }
        }
      }
    }
    assert Info(snippet, env) == title + "\n" + ("\n" + d);
    SplitCons(title, "\n" + d);
    assert "\n" + d == "" + "\n" + d;
    SplitCons("", d);
  }

  /** With static text the render function is never consulted: snippets
      that differ only in how they render describe themselves alike. */
  lemma InfoIgnoresRenderWithText(a: Snippet, b: Snippet, env: Env)
    requires a.text.Some? && a.name == b.name && a.text == b.text
    ensures Info(a, env) == Info(b, env)
  {
  }

  datatype Item = Item(word: string, info: string)

  datatype Listing = Listing(state: State, cache: Cache, items: seq<Item>)

  /** `items`: loads the module for the buffer's filetype, records the
      buffer's file name in the shared state (a later render in a running
      session sees it), and lists every export with its info, in order. */
  function Items(s: State, cache: Cache, fileType: string, load: string -> Option<Module>,
                 fileName: string): (r: Listing)
    ensures r.cache == LoadModule(cache, fileType, load).cache
    ensures r.state == s.(env := s.env.(fileName := fileName))
    ensures var m := LoadModule(cache, fileType, load).snippets;
      && |r.items| == |m|
      && forall i :: 0 <= i < |m| ==>
           r.items[i].word == m[i].key && r.items[i].info == Info(m[i].snippet, r.state.env)
  {
    var loaded := LoadModule(cache, fileType, load);
    var t := s.(env := s.env.(fileName := fileName));
    var m := loaded.snippets;
    Listing(t, loaded.cache, seq(|m|, i requires 0 <= i < |m| => Item(m[i].key, Info(m[i].snippet, t.env))))
  }

  /** Listing items touches nothing a session relies on except the file
      name later renders receive. */
  lemma ItemsKeepsSession(s: State, cache: Cache, fileType: string, load: string -> Option<Module>, fileName: string)
    ensures var t := Items(s, cache, fileType, load, fileName).state;
      && t.inputs == s.inputs && t.paramIndex == s.paramIndex && t.snippet == s.snippet
      && t.currentLine == s.currentLine && t.markSet == s.markSet
      && t.env.fileType == s.env.fileType && t.env.cwd == s.env.cwd && t.env.fileName == fileName
  {
  }
}
