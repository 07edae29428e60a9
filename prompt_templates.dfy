/**
 * `get_prompt_template` of `utils/prompt_templates.py`: the system and user prompt chosen
 * by file extension, with a default for every other key.
 */
module PromptTemplates {
  import opened Text

  /** A template: the `'system'` and `'user'` entries. */
  datatype Template = Template(system: string, user: string)

  const CodeSystem := "You are a concise code assistant. Answer in 2 sentences max."
  const DocSystem := "You are a concise documentation assistant. Answer in 2 sentences max."
  const ContextSlot := "{context}"
  const QuerySlot := "{query}"
  const Question := "\n\nQuestion: "
  const Closing := "\n\nAnswer briefly (2 sentences):"

  /** The user prompt with a heading, then the context, then the question. */
  function UserPrompt(heading: string): string {
    heading + ":\n" + ContextSlot + Question + QuerySlot + Closing
  }

  /** The `templates` dictionary. */
  const Templates: map<string, Template> := map[
    ".ipynb" := Template(CodeSystem, UserPrompt("Notebook section")),
    ".py" := Template(CodeSystem, UserPrompt("Python code")),
    ".md" := Template(DocSystem, UserPrompt("Documentation")),
    "default" := Template(CodeSystem, UserPrompt("Code"))]

  /** `get_prompt_template(file_extension)`: `templates.get(file_extension, templates['default'])`. */
  function GetPromptTemplate(fileExtension: string): Template {
    if fileExtension in Templates then Templates[fileExtension] else Templates["default"]
  }

  /** The three known extensions each get their own template. */
  lemma KnownExtensions()
    ensures GetPromptTemplate(".ipynb") == Template(CodeSystem, UserPrompt("Notebook section"))
    ensures GetPromptTemplate(".py") == Template(CodeSystem, UserPrompt("Python code"))
    ensures GetPromptTemplate(".md") == Template(DocSystem, UserPrompt("Documentation"))
  {
  }

  /** The three known templates differ from each other and from the default one. */
  lemma KnownDistinct()
    ensures GetPromptTemplate(".ipynb") != GetPromptTemplate(".py")
    ensures GetPromptTemplate(".py") != GetPromptTemplate(".md")
    ensures GetPromptTemplate(".ipynb") != GetPromptTemplate(".md")
    ensures GetPromptTemplate(".ipynb") != GetPromptTemplate("default")
    ensures GetPromptTemplate(".py") != GetPromptTemplate("default")
    ensures GetPromptTemplate(".md") != GetPromptTemplate("default")
  {
    KnownExtensions();
    UserPromptFirst("Notebook section");
    UserPromptFirst("Python code");
    UserPromptFirst("Documentation");
    UserPromptFirst("Code");
  }

  lemma UserPromptFirst(heading: string)
    requires heading != ""
    ensures UserPrompt(heading)[0] == heading[0]
  {
  }

  /** Any other key, a dot-less one such as `"py"` included, gets the default template. */
  lemma OtherKeys(fileExtension: string)
    requires fileExtension !in {".ipynb", ".py", ".md"}
    ensures GetPromptTemplate(fileExtension) == Template(CodeSystem, UserPrompt("Code"))
  {
  }

  /** Every template's user prompt holds `{context}` and, after it, `{query}`. */
  lemma ContextBeforeQuery(fileExtension: string)
    ensures var u := GetPromptTemplate(fileExtension).user;
      exists i: nat, j: nat :: i + |ContextSlot| <= j && OccursAt(u, ContextSlot, i) && OccursAt(u, QuerySlot, j)
  {
    var t := GetPromptTemplate(fileExtension);
    var heading :| heading in {"Notebook section", "Python code", "Documentation", "Code"} &&
                   t.user == UserPrompt(heading);
    UserPromptOrder(heading);
  }

  lemma UserPromptOrder(heading: string)
    ensures var u := UserPrompt(heading); var i := |heading| + 2;
      OccursAt(u, ContextSlot, i) && OccursAt(u, QuerySlot, i + |ContextSlot| + |Question|)
  {
    var x := heading + ":\n";
    OccursAtEnd(x, ContextSlot);
    OccursAtExtend(x + ContextSlot, ContextSlot, |x|, Question);
    OccursAtExtend(x + ContextSlot + Question, ContextSlot, |x|, QuerySlot);
    OccursAtExtend(x + ContextSlot + Question + QuerySlot, ContextSlot, |x|, Closing);
    var y := x + ContextSlot + Question;
    OccursAtEnd(y, QuerySlot);
    OccursAtExtend(y + QuerySlot, QuerySlot, |y|, Closing);
  }

  /** The lookup is total: every key yields one of the dictionary's templates, with a system
      prompt and a user prompt. */
  lemma LookupTotal(fileExtension: string)
    ensures GetPromptTemplate(fileExtension) in Templates.Values
    ensures GetPromptTemplate(fileExtension).system != "" && GetPromptTemplate(fileExtension).user != ""
  {
  }
}
