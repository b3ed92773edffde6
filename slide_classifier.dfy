/**
  The slide classifier: an ordered chain of keyword tests on the lower-cased
  slide text that labels a slide with the kind of content it holds.
 */
module SlideClassifier {
  import opened Text

  /** Keywords of the first rule; "steps" also contains "step", the list is kept as written. */
  const ProcessWords: seq<string> := ["step", "steps", "process", "workflow", "lifecycle", "phases"]

  /** Keywords of the third rule. */
  const HierarchyWords: seq<string> := ["types", "kinds", "categories"]

  /** Every label the classifier can give. */
  const Categories: set<string> := {"process", "comparison", "hierarchy", "definition", "list", "unknown"}

  /** Python `any(word in s for word in words)`. */
  predicate AnyIn(words: seq<string>, s: string) {
    exists w :: w in words && Contains(s, w)
  }

  /** The second rule: "vs", "versus" or "compare" as plain substrings. */
  predicate IsComparison(lower: string) {
    Contains(lower, "vs") || Contains(lower, "versus") || Contains(lower, "compare")
  }

  /** The fourth rule. */
  predicate IsDefinition(lower: string) {
    StartsWith(lower, "what is") || Contains(lower, "definition")
  }

  /** `classify_slide`: the first rule that fires decides the label. */
  function ClassifySlide(text: string): (kind: string)
    ensures kind in Categories
  {
    var lower := Lower(text);
    if AnyIn(ProcessWords, lower) then "process"
    else if IsComparison(lower) then "comparison"
    else if AnyIn(HierarchyWords, lower) then "hierarchy"
    else if IsDefinition(lower) then "definition"
    // the newline test looks at the original text, not the lower-cased one
    else if '\n' in text then "list"
    else "unknown"
  }

  /** A process keyword wins over every other keyword the text may hold. */
  lemma ProcessWins(text: string, w: string)
    requires w in ProcessWords && Contains(Lower(text), w)
    ensures ClassifySlide(text) == "process"
  {
  }

  /** "vs" anywhere, even inside a word, makes the slide a comparison unless a process keyword is present. */
  lemma VsAnywhereIsComparison(text: string)
    requires !AnyIn(ProcessWords, Lower(text)) && Contains(Lower(text), "vs")
    ensures ClassifySlide(text) == "comparison"
  {
  }

  /** "definition" is given exactly when the fourth rule holds and none of the first three fired. */
  lemma DefinitionExactly(text: string)
    ensures var lower := Lower(text);
      ClassifySlide(text) == "definition" <==>
        !AnyIn(ProcessWords, lower) && !IsComparison(lower) && !AnyIn(HierarchyWords, lower) && IsDefinition(lower)
  {
  }

  /** Without any keyword the label only tells whether the text spans several lines. */
  lemma NoKeywordLabel(text: string)
    requires var lower := Lower(text);
      !AnyIn(ProcessWords, lower) && !IsComparison(lower) && !AnyIn(HierarchyWords, lower) && !IsDefinition(lower)
    ensures ClassifySlide(text) == if '\n' in text then "list" else "unknown"
  {
  }

  /** Texts that agree once lower-cased get the same label. */
  lemma CaseInsensitive(a: string, b: string)
    requires Lower(a) == Lower(b)
    ensures ClassifySlide(a) == ClassifySlide(b)
  {
    NewlineInLower(a);
    NewlineInLower(b);
  }
}
