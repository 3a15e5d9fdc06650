/**
 * The alphabetic index as the two index loaders see it, in place of the
 * parsed XML: letters, each with a title and its `mainTerm`s, and terms
 * nested through `term` children.
 *
 * A term records its `title` text ("" when the element is missing or
 * empty), the texts of its own `code` and `codes` children (`None` for an
 * element without text), the texts of its `use` elements, the inner text
 * of its `see` elements, and its `term` children. Document order is taken
 * to be a term's own elements first, then its sub-terms, which is how
 * descendant searches (`.//code`) enumerate them here.
 */
module IndexTree {
  import opened Common

  datatype Term = Term(
    title: string,
    code: seq<Option<string>>,
    codes: seq<Option<string>>,
    uses: seq<Option<string>>,
    sees: seq<string>,
    terms: seq<Term>)

  datatype Letter = Letter(title: string, mains: seq<Term>)
}
