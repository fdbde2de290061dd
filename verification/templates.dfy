/** The prompt-template catalog built once by the generator's constructor:
    four task ids, each mapped to a display name, a short description and the
    base prompt the composer starts from. */
module Templates {
  import opened Wrappers

  datatype Template = Template(name: string, description: string, basePrompt: string)

  const BrandReview: string := "brand-review"
  const CopyWriting: string := "copy-writing"
  const DesignFeedback: string := "design-feedback"
  const CreativeConcepts: string := "creative-concepts"

  /** The catalog's task ids, in the order the catalog lists them. */
  const TaskIds: seq<string> := [BrandReview, CopyWriting, DesignFeedback, CreativeConcepts]

  /** The four base prompts. Their multi-paragraph wording is domain content;
      the model keeps them as distinct stand-in strings. */
  const BrandReviewPrompt: string := "<brand-review base prompt>"
  const CopyWritingPrompt: string := "<copy-writing base prompt>"
  const DesignFeedbackPrompt: string := "<design-feedback base prompt>"
  const CreativeConceptsPrompt: string := "<creative-concepts base prompt>"

  /** The task-id-to-template table the constructor stores. */
  function InitializePromptTemplates(): (m: map<string, Template>)
    ensures forall id :: id in m <==> id in TaskIds
    ensures m[BrandReview] == Template("Brand Review",
      "Check designs, copy, or assets against SAS brand guidelines", BrandReviewPrompt)
    ensures m[CopyWriting] == Template("Copy Writing",
      "Create or improve marketing copy following SAS voice", CopyWritingPrompt)
    ensures m[DesignFeedback] == Template("Design Feedback",
      "Get design suggestions and improvements", DesignFeedbackPrompt)
    ensures m[CreativeConcepts] == Template("Creative Ideas",
      "Generate campaign concepts and creative ideas", CreativeConceptsPrompt)
  {
    map[
      BrandReview := Template("Brand Review",
        "Check designs, copy, or assets against SAS brand guidelines", BrandReviewPrompt),
      CopyWriting := Template("Copy Writing",
        "Create or improve marketing copy following SAS voice", CopyWritingPrompt),
      DesignFeedback := Template("Design Feedback",
        "Get design suggestions and improvements", DesignFeedbackPrompt),
      CreativeConcepts := Template("Creative Ideas",
        "Generate campaign concepts and creative ideas", CreativeConceptsPrompt)
    ]
  }

  /** `promptTemplates[id]`: the template stored under `id`, or `undefined`. */
  function Lookup(id: string): (t: Option<Template>)
    ensures t.Some? <==> id in TaskIds
    ensures t.Some? ==> t.value == InitializePromptTemplates()[id]
  {
    var m := InitializePromptTemplates();
    if id in m then Some(m[id]) else None
  }

  /** Distinct tasks have distinct names and distinct base prompts, so the
      catalog is injective: a template determines its id. */
  lemma CatalogInjective(i: string, j: string)
    requires i in TaskIds && j in TaskIds && i != j
    ensures InitializePromptTemplates()[i].name != InitializePromptTemplates()[j].name
    ensures InitializePromptTemplates()[i].basePrompt != InitializePromptTemplates()[j].basePrompt
  {
  }
}
