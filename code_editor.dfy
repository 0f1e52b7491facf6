/**
 * The code editor wrapper: the language name handed to the editor is
 * looked up from a fixed table of file extensions, case-insensitively,
 * with "plaintext" for everything else; editor changes are forwarded only
 * when they carry a value.
 */
module CodeEditor {
  import opened JsText

  /** The extension table of `getLanguageFromExtension`. */
  const LanguageMap: map<string, string> := map[
    "py" := "python", "js" := "javascript", "ts" := "typescript", "java" := "java",
    "cpp" := "cpp", "c" := "c", "go" := "go", "rs" := "rust", "php" := "php",
    "rb" := "ruby", "md" := "markdown", "json" := "json", "xml" := "xml",
    "html" := "html", "css" := "css", "sql" := "sql", "sh" := "shell",
    "yml" := "yaml", "yaml" := "yaml"
  ]

  const Plaintext := "plaintext"

  /**
   * Lower-case keys that a plain JavaScript object answers through its
   * prototype although the table does not list them: `constructor` (a
   * function) and `__proto__` (the prototype object). Both are truthy.
   */
  const PrototypeKeys: set<string> := {"constructor", "__proto__"}

  /** What the lookup yields in JavaScript: a language name, or a prototype member that is not a string. */
  datatype Lookup = Name(name: string) | PrototypeMember(key: string)

  /** `languageMap[lang.toLowerCase()] || 'plaintext'` as written, prototype included. */
  function LanguageFromExtensionAsWritten(lang: string): (r: Lookup)
    ensures r.PrototypeMember? <==> Lower(lang) in PrototypeKeys
  {
    var key := Lower(lang);
    if key in LanguageMap then Name(LanguageMap[key])
    else if key in PrototypeKeys then PrototypeMember(key)
    else Name(Plaintext)
  }

  /** The lookup on the table's own entries only: the evidently intended behaviour. */
  function LanguageFromExtension(lang: string): (r: string)
    ensures r in LanguageMap.Values || r == Plaintext
    ensures r == Plaintext <==> Lower(lang) !in LanguageMap
    ensures Lower(lang) in LanguageMap ==> r == LanguageMap[Lower(lang)]
  {
    var key := Lower(lang);
    if key in LanguageMap then
      assert LanguageMap[key] in LanguageMap.Values;
      LanguageMap[key]
    else Plaintext
  }

  /** Both lookups agree on every key other than the two prototype keys. */
  lemma AsWrittenAgreesOffPrototype(lang: string)
    requires Lower(lang) !in PrototypeKeys
    ensures LanguageFromExtensionAsWritten(lang) == Name(LanguageFromExtension(lang))
  {
  }

  /** A file named `x.constructor` makes the as-written lookup return a function instead of a language name. */
  lemma ConstructorKeyEscapesTable(lang: string)
    requires lang == "Constructor"
    ensures LanguageFromExtensionAsWritten(lang) == PrototypeMember("constructor")
    ensures LanguageFromExtension(lang) == Plaintext
  {
    assert Lower(lang) == "constructor";
  }

  /** The lookup ignores case: the result depends only on the lower-cased key. */
  lemma LanguageIgnoresCase(lang: string)
    ensures LanguageFromExtension(lang) == LanguageFromExtension(Lower(lang))
  {
    LowerIdempotent(lang);
  }

  /** Upper-case extensions reach the same entry: "PY" and "py" are both Python. */
  lemma UpperCasePython(lang: string)
    requires lang == "PY"
    ensures LanguageFromExtension(lang) == LanguageFromExtension("py") == "python"
  {
    assert Lower(lang) == "py";
    assert Lower("py") == "py";
  }

  /** Both spellings of YAML map to "yaml". */
  lemma YamlAliases()
    ensures LanguageFromExtension("yml") == LanguageFromExtension("yaml") == "yaml"
  {
    assert Lower("yml") == "yml";
    assert Lower("yaml") == "yaml";
  }

  /** The workspace's "text" default is not in the table and shows as plain text. */
  lemma TextIsPlaintext(lang: string)
    requires lang == "text"
    ensures LanguageFromExtension(lang) == Plaintext
  {
    assert Lower(lang) == "text";
  }

  /** `handleEditorChange(value)`: the `onChange` calls it makes, at most one. */
  function ForwardedChanges(value: Option<string>): (calls: seq<string>)
    ensures |calls| <= 1
    ensures calls == [] <==> value.None?
    ensures forall v :: v in calls ==> value == Some(v)
  {
    if value.Some? then [value.value] else []
  }
}
